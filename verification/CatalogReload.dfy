// Rebuilding the in-memory index from the stored rows alone.
module CatalogReload {
  import opened Wrappers
  import opened Values
  import opened Memory
  import opened Gathering
  import opened CatalogRows
  import opened CatalogState
  import opened CatalogNames

  type Listing = seq<(RowId, Row)>

  // ------------------------------------------------------------- columns

  method ReadColumns(host: Host, entries: Listing) returns (r: Option<seq<Piece<ColumnDef>>>)
    ensures r.None? <==> exists i :: 0 <= i < |entries| && ReadColumn(host, entries[i].1).None?
    ensures r.Some? ==> |r.value| == |entries| && forall i :: 0 <= i < |entries| ==>
            ColumnPiece(host, entries[i].1, r.value[i])
  {
    var pieces: seq<Piece<ColumnDef>> := [];
    for i := 0 to |entries|
      invariant |pieces| == i
      invariant forall j :: 0 <= j < i ==> ColumnPiece(host, entries[j].1, pieces[j])
    {
      var c := ReadColumn(host, entries[i].1);
      if c.None? {
        return None;
      }
      pieces := pieces + [Piece(c.value.table, c.value.position, c.value.def)];
    }
    return Some(pieces);
  }

  ghost predicate ColumnPiece(host: Host, row: Row, x: Piece<ColumnDef>) {
    ReadColumn(host, row) == Some(ColumnRecord(x.owner, x.position, x.payload))
  }

  ghost function ColumnLists(byId: map<nat, Entry>): map<nat, seq<ColumnDef>> {
    map id | id in byId :: byId[id].columns
  }

  // A stored column row is the row of the column it names.
  lemma {:induction false} ColumnRowReads(host: Host, byId: map<nat, Entry>, at: map<(nat, nat), RowId>, rows: Rows,
                                          r: RowId)
    returns (k: (nat, nat))
    requires FloatsReadBack(host) && ColumnsStored(host, byId, at, rows) && r in rows
    requires forall id :: id in byId ==> id < U32
    ensures k in at && at[k] == r && HasColumn(byId, k)
    ensures ReadColumn(host, rows[r]) == Some(ColumnRecord(k.0, k.1, byId[k.0].columns[k.1]))
  {
    assert ColumnRowOwned(at, rows, r);
    k := (ObjectId(rows[r], 0).value, Ordinal(rows[r], 1).value);
    assert ColumnAt(host, byId, at, rows, k);
    ColumnReadsBack(host, ColumnRecord(k.0, k.1, byId[k.0].columns[k.1]));
  }

  lemma {:induction false} ColumnPieces(host: Host, byId: map<nat, Entry>, at: map<(nat, nat), RowId>, rows: Rows,
                                        entries: Listing, pieces: seq<Piece<ColumnDef>>)
    requires FloatsReadBack(host) && ColumnsStored(host, byId, at, rows) && Lists(rows, entries)
    requires forall id :: id in byId ==> id < U32
    requires |pieces| == |entries| && forall i :: 0 <= i < |entries| ==> ColumnPiece(host, entries[i].1, pieces[i])
    ensures Pieces(pieces, ColumnLists(byId))
    ensures forall i :: 0 <= i < |entries| ==>
            (pieces[i].owner, pieces[i].position) in at && at[(pieces[i].owner, pieces[i].position)] == entries[i].0
  {
    forall i | 0 <= i < |entries|
      ensures Fits(pieces[i], ColumnLists(byId))
      ensures (pieces[i].owner, pieces[i].position) in at && at[(pieces[i].owner, pieces[i].position)] == entries[i].0
    {
      var k := ColumnRowReads(host, byId, at, rows, entries[i].0);
      assert ColumnPiece(host, entries[i].1, pieces[i]);
    }
  }

  lemma {:induction false} ColumnsHeld(host: Host, byId: map<nat, Entry>, at: map<(nat, nat), RowId>, rows: Rows,
                                       entries: Listing, pieces: seq<Piece<ColumnDef>>, id: nat, p: nat)
    requires FloatsReadBack(host) && ColumnsStored(host, byId, at, rows) && Lists(rows, entries)
    requires forall x :: x in byId ==> x < U32
    requires |pieces| == |entries| && forall i :: 0 <= i < |entries| ==> ColumnPiece(host, entries[i].1, pieces[i])
    requires HasColumn(byId, (id, p))
    ensures Held(pieces, id, p)
  {
    var k := (id, p);
    assert k in at && ColumnAt(host, byId, at, rows, k);
    var i := Listed(entries, at[k]);
    assert ColumnPiece(host, entries[i].1, pieces[i]);
    ColumnReadsBack(host, ColumnRecord(id, p, byId[id].columns[p]));
    assert pieces[i].owner == id && pieces[i].position == p;
  }

  // The columns of a table come back in order.
  lemma {:induction false} ColumnsComeBack(host: Host, byId: map<nat, Entry>, at: map<(nat, nat), RowId>, rows: Rows,
                                           entries: Listing, pieces: seq<Piece<ColumnDef>>, id: nat)
    requires FloatsReadBack(host) && ColumnsStored(host, byId, at, rows) && Lists(rows, entries)
    requires forall x :: x in byId ==> x < U32
    requires |pieces| == |entries| && forall i :: 0 <= i < |entries| ==> ColumnPiece(host, entries[i].1, pieces[i])
    requires id in byId
    ensures Payloads(Sort(Of(pieces, id))) == byId[id].columns
  {
    ColumnPieces(host, byId, at, rows, entries, pieces);
    forall p | 0 <= p < |byId[id].columns| ensures Held(pieces, id, p) {
      ColumnsHeld(host, byId, at, rows, entries, pieces, id, p);
    }
    ComesBack(pieces, ColumnLists(byId), id);
  }

  // ------------------------------------------------------------- indexes

  method ReadIndexes(entries: Listing) returns (r: Option<seq<Piece<IndexPart>>>)
    ensures r.None? <==> exists i :: 0 <= i < |entries| && ReadIndex(entries[i].1).None?
    ensures r.Some? ==> |r.value| == |entries| && forall i :: 0 <= i < |entries| ==>
            IndexPiece(entries[i].1, r.value[i])
  {
    var pieces: seq<Piece<IndexPart>> := [];
    for i := 0 to |entries|
      invariant |pieces| == i
      invariant forall j :: 0 <= j < i ==> IndexPiece(entries[j].1, pieces[j])
    {
      var x := ReadIndex(entries[i].1);
      if x.None? {
        return None;
      }
      pieces := pieces + [Piece(x.value.id, x.value.position, x.value.part)];
    }
    return Some(pieces);
  }

  ghost predicate IndexPiece(row: Row, x: Piece<IndexPart>) {
    ReadIndex(row) == Some(IndexRecord(x.owner, x.position, x.payload))
  }

  ghost function Parts(d: IndexDef): (parts: seq<IndexPart>)
    ensures |parts| == |d.columns|
  {
    seq(|d.columns|, p requires 0 <= p < |d.columns| => PartOf(d, p))
  }

  ghost function PartLists(indexes: map<nat, IndexDef>): map<nat, seq<IndexPart>> {
    map x | x in indexes :: Parts(indexes[x])
  }

  lemma {:induction false} IndexRowReads(indexes: map<nat, IndexDef>, at: map<(nat, nat), RowId>, rows: Rows, r: RowId)
    returns (k: (nat, nat))
    requires IndexesStored(indexes, at, rows) && r in rows
    ensures k in at && at[k] == r && HasIndexColumn(indexes, k)
    ensures ReadIndex(rows[r]) == Some(IndexRecord(k.0, k.1, PartOf(indexes[k.0], k.1)))
  {
    assert IndexRowOwned(at, rows, r);
    k := (ObjectId(rows[r], 0).value, Ordinal(rows[r], 3).value);
    assert IndexAt(indexes, at, rows, k);
    IndexReadsBack(IndexRecord(k.0, k.1, PartOf(indexes[k.0], k.1)));
  }

  lemma {:induction false} IndexPieces(indexes: map<nat, IndexDef>, at: map<(nat, nat), RowId>, rows: Rows,
                                       entries: Listing, pieces: seq<Piece<IndexPart>>)
    requires IndexesStored(indexes, at, rows) && Lists(rows, entries)
    requires |pieces| == |entries| && forall i :: 0 <= i < |entries| ==> IndexPiece(entries[i].1, pieces[i])
    ensures Pieces(pieces, PartLists(indexes))
  {
    forall i | 0 <= i < |entries|
      ensures Fits(pieces[i], PartLists(indexes))
      ensures (pieces[i].owner, pieces[i].position) in at && at[(pieces[i].owner, pieces[i].position)] == entries[i].0
    {
      var k := IndexRowReads(indexes, at, rows, entries[i].0);
      assert IndexPiece(entries[i].1, pieces[i]);
    }
  }

  lemma {:induction false} IndexHeld(indexes: map<nat, IndexDef>, at: map<(nat, nat), RowId>, rows: Rows,
                                     entries: Listing, pieces: seq<Piece<IndexPart>>, id: nat, p: nat)
    requires IndexesStored(indexes, at, rows) && Lists(rows, entries)
    requires |pieces| == |entries| && forall i :: 0 <= i < |entries| ==> IndexPiece(entries[i].1, pieces[i])
    requires HasIndexColumn(indexes, (id, p))
    ensures Held(pieces, id, p)
  {
    var k := (id, p);
    assert k in at && IndexAt(indexes, at, rows, k);
    var i := Listed(entries, at[k]);
    assert IndexPiece(entries[i].1, pieces[i]);
    IndexReadsBack(IndexRecord(id, p, PartOf(indexes[id], p)));
    assert pieces[i].owner == id && pieces[i].position == p;
  }

  lemma {:induction false} IndexComesBack(indexes: map<nat, IndexDef>, at: map<(nat, nat), RowId>, rows: Rows,
                                          entries: Listing, pieces: seq<Piece<IndexPart>>, id: nat)
    requires IndexesStored(indexes, at, rows) && Lists(rows, entries)
    requires |pieces| == |entries| && forall i :: 0 <= i < |entries| ==> IndexPiece(entries[i].1, pieces[i])
    ensures id in indexes ==> Payloads(Sort(Of(pieces, id))) == Parts(indexes[id])
    ensures id !in indexes ==> Of(pieces, id) == []
  {
    IndexPieces(indexes, at, rows, entries, pieces);
    OfFits(pieces, PartLists(indexes), id);
    if id in indexes {
      forall p | 0 <= p < |Parts(indexes[id])| ensures Held(pieces, id, p) {
        IndexHeld(indexes, at, rows, entries, pieces, id, p);
      }
      ComesBack(pieces, PartLists(indexes), id);
    }
  }

  function ColumnNames(parts: seq<IndexPart>): seq<string> {
    seq(|parts|, i requires 0 <= i < |parts| => parts[i].column)
  }

  // The definition put together from an index's parts; all of them carry the same head.
  function Assemble(id: nat, parts: seq<IndexPart>): IndexDef
    requires parts != []
  {
    var last := parts[|parts| - 1];
    IndexDef(id, last.name, last.table, ColumnNames(parts), last.unique)
  }

  lemma {:induction false} AssembleBack(d: IndexDef)
    requires d.columns != []
    ensures Assemble(d.id, Parts(d)) == d
  {
    assert ColumnNames(Parts(d)) == d.columns;
  }

  // -------------------------------------------------------------- tables

  method ReadTables(entries: Listing, columns: map<nat, Numbered<ColumnDef>>) returns (r: Option<seq<Entry>>)
    ensures r.None? <==> exists i :: 0 <= i < |entries| && ReadTable(entries[i].1).None?
    ensures r.Some? ==> |r.value| == |entries| && forall i :: 0 <= i < |entries| ==>
            TableEntry(entries[i].1, columns, r.value[i])
  {
    var tables: seq<Entry> := [];
    for i := 0 to |entries|
      invariant |tables| == i
      invariant forall j :: 0 <= j < i ==> TableEntry(entries[j].1, columns, tables[j])
    {
      var t := ReadTable(entries[i].1);
      if t.None? {
        return None;
      }
      tables := tables + [Entry(t.value.id, t.value.schema, t.value.name,
        Payloads(Sort(AtOrEmpty(columns, t.value.id))))];
    }
    return Some(tables);
  }

  ghost predicate TableEntry(row: Row, columns: map<nat, Numbered<ColumnDef>>, e: Entry) {
    ReadTable(row) == Some(TableRecord(e.id, e.schema, e.name)) && e.columns == Payloads(Sort(AtOrEmpty(columns, e.id)))
  }

  // Row `i` of the listing is the row of the table it names.
  lemma {:induction false} TableRowReads(byId: map<nat, Entry>, at: map<nat, RowId>, rows: Rows, r: RowId)
    returns (id: nat)
    requires TablesStored(byId, at, rows) && r in rows
    ensures id in byId && at[id] == r && id < U32
    ensures ReadTable(rows[r]) == Some(TableRecord(id, byId[id].schema, byId[id].name)) && byId[id].id == id
  {
    assert TableRowOwned(at, rows, r);
    id := ObjectId(rows[r], 0).value;
    assert TableAt(byId, at, rows, id);
    TableReadsBack(TableRecord(id, byId[id].schema, byId[id].name));
  }

  lemma {:induction false} TableListed(byId: map<nat, Entry>, at: map<nat, RowId>, rows: Rows, entries: Listing,
                                       id: nat) returns (i: nat)
    requires TablesStored(byId, at, rows) && Lists(rows, entries) && id in byId
    ensures i < |entries| && ReadTable(entries[i].1) == Some(TableRecord(id, byId[id].schema, byId[id].name))
  {
    assert TableAt(byId, at, rows, id);
    i := Listed(entries, at[id]);
    TableReadsBack(TableRecord(id, byId[id].schema, byId[id].name));
  }

  // ------------------------------------------------------------ rebuilding

  // Everything in `c` is in `whole`.
  ghost predicate PartOfCache(c: Cache, whole: Cache) {
    && (forall id :: id in c.byId ==> id in whole.byId && c.byId[id] == whole.byId[id])
    && (forall x :: x in c.indexes ==> x in whole.indexes && c.indexes[x] == whole.indexes[x])
  }

  lemma {:induction false} OneTablePerName(c: Cache, id: nat, other: nat)
    requires Named(c) && id in c.byId && other in c.byId
    requires c.byId[id].schema == c.byId[other].schema && c.byId[id].name == c.byId[other].name
    ensures id == other
  {
    assert NameOk(c, id) && NameOk(c, other);
  }

  lemma {:induction false} OneIndexPerName(c: Cache, x: nat, other: nat)
    requires Named(c) && x in c.indexes && other in c.indexes && c.indexes[x].name == c.indexes[other].name
    requires c.indexes[x].table in c.byId && c.indexes[other].table in c.byId
    requires c.byId[c.indexes[x].table].schema == c.byId[c.indexes[other].table].schema
    ensures x == other
  {
    assert IndexNameOk(c, x) && IndexNameOk(c, other);
  }

  lemma {:induction false} TableNameFree(c: Cache, whole: Cache, e: Entry)
    requires Named(c) && Named(whole) && PartOfCache(c, whole) && e.id in whole.byId && whole.byId[e.id] == e
             && e.id !in c.byId
    ensures (e.schema, e.name) !in c.byName
  {
    var k := (e.schema, e.name);
    if k in c.byName {
      assert LabelOk(c, k);
      OneTablePerName(whole, c.byName[k], e.id);
    }
  }

  lemma {:induction false} IndexNameFree(c: Cache, whole: Cache, d: IndexDef)
    requires Named(c) && Named(whole) && PartOfCache(c, whole) && c.byId == whole.byId
    requires d.id in whole.indexes && whole.indexes[d.id] == d && d.id !in c.indexes
    ensures d.table in c.byId && d.columns != [] && (c.byId[d.table].schema, d.name) !in c.indexByName
  {
    assert IndexNameOk(whole, d.id);
    var k := (c.byId[d.table].schema, d.name);
    if k in c.indexByName {
      assert IndexLabelOk(c, k);
      OneIndexPerName(whole, c.indexByName[k], d.id);
    }
  }

  // Each table once.
  ghost predicate Roster(tables: seq<Entry>, whole: Cache) {
    && (forall i :: 0 <= i < |tables| ==> tables[i].id in whole.byId && whole.byId[tables[i].id] == tables[i])
    && (forall i, j :: 0 <= i < j < |tables| ==> tables[i].id != tables[j].id)
  }

  // An index over part of `whole`.
  ghost predicate Sound(c: Cache, whole: Cache) { Named(c) && Ahead(c) && Tight(c) && PartOfCache(c, whole) }

  ghost function TableIds(tables: seq<Entry>): set<nat> {
    if tables == [] then {} else TableIds(tables[..|tables| - 1]) + {tables[|tables| - 1].id}
  }

  lemma {:induction false} TableIdAt(tables: seq<Entry>, id: nat) returns (i: nat)
    requires id in TableIds(tables)
    ensures i < |tables| && tables[i].id == id
  {
    if tables[|tables| - 1].id == id {
      i := |tables| - 1;
    } else {
      i := TableIdAt(tables[..|tables| - 1], id);
    }
  }

  lemma {:induction false} TableStep(c: Cache, whole: Cache, tables: seq<Entry>, i: nat)
    requires Named(whole) && Roster(tables, whole) && i < |tables| && Sound(c, whole)
             && c.byId.Keys == TableIds(tables[..i])
    ensures Sound(InsertTable(c, tables[i]), whole) && InsertTable(c, tables[i]).byId.Keys == TableIds(tables[..i + 1])
  {
    var e := tables[i];
    if e.id in c.byId {
      var j := TableIdAt(tables[..i], e.id);
      assert false;
    }
    TableNameFree(c, whole, e);
    TableNamed(c, e);
    assert tables[..i + 1][..i] == tables[..i];
  }

  method InsertTables(tables: seq<Entry>, ghost whole: Cache) returns (c: Cache)
    requires Named(whole) && Roster(tables, whole)
    ensures Sound(c, whole) && c.indexes == map[] && c.byId.Keys == TableIds(tables)
  {
    c := EMPTY;
    for i := 0 to |tables|
      invariant Sound(c, whole) && c.indexes == map[] && c.byId.Keys == TableIds(tables[..i])
    {
      TableStep(c, whole, tables, i);
      c := InsertTable(c, tables[i]);
    }
    assert tables[..|tables|] == tables;
  }

  lemma {:induction false} IndexAdded(c: Cache, whole: Cache, def: IndexDef, schema: string)
    requires PartOfCache(c, whole) && c.byId == whole.byId && def.id in whole.indexes && whole.indexes[def.id] == def
    ensures var c' := InsertIndex(c, def, schema);
            PartOfCache(c', whole) && c'.byId == whole.byId && c'.indexes.Keys == c.indexes.Keys + {def.id}
  {
  }

  lemma {:induction false} IndexStep(c: Cache, whole: Cache, def: IndexDef, schema: string)
    requires Named(whole) && Sound(c, whole) && c.byId == whole.byId && schema == SchemaOf(c, def.table)
    requires def.id in whole.indexes && whole.indexes[def.id] == def && def.id !in c.indexes
    ensures var c' := InsertIndex(c, def, schema);
            Sound(c', whole) && c'.byId == whole.byId && c'.indexes.Keys == c.indexes.Keys + {def.id}
  {
    IndexNameFree(c, whole, def);
    IndexNamed(c, def, schema);
    IndexAdded(c, whole, def, schema);
  }

  // Every index of `whole`, put together from its gathered parts.
  ghost predicate GatheredParts(gathered: map<nat, Numbered<IndexPart>>, whole: Cache) {
    && gathered.Keys == whole.indexes.Keys
    && forall x :: x in gathered ==> gathered[x] != [] && Payloads(Sort(gathered[x])) == Parts(whole.indexes[x])
  }

  lemma {:induction false} Assembled(gathered: map<nat, Numbered<IndexPart>>, whole: Cache, x: nat)
    requires Named(whole) && GatheredParts(gathered, whole) && x in gathered
    ensures Payloads(Sort(gathered[x])) != [] && Assemble(x, Payloads(Sort(gathered[x]))) == whole.indexes[x]
    ensures whole.indexes[x].id == x
  {
    assert IndexNameOk(whole, x);
    AssembleBack(whole.indexes[x]);
  }

  // All indexes but those `left` are in place.
  ghost predicate Partway(c: Cache, whole: Cache, left: set<nat>) {
    Sound(c, whole) && c.byId == whole.byId && left <= whole.indexes.Keys && c.indexes.Keys == whole.indexes.Keys - left
  }

  method InsertGathered(c0: Cache, gathered: map<nat, Numbered<IndexPart>>, x: nat, ghost whole: Cache,
                        ghost left: set<nat>) returns (c: Cache)
    requires Named(whole) && GatheredParts(gathered, whole) && Partway(c0, whole, left) && x in left && x in gathered
    ensures Partway(c, whole, left - {x})
  {
    Assembled(gathered, whole, x);
    var def := Assemble(x, Payloads(Sort(gathered[x])));
    var schema := SchemaOf(c0, def.table);
    IndexStep(c0, whole, def, schema);
    c := InsertIndex(c0, def, schema);
    OneLess(whole.indexes.Keys, left, x);
  }

  method InsertIndexes(c0: Cache, gathered: map<nat, Numbered<IndexPart>>, ghost whole: Cache) returns (c: Cache)
    requires Sound(c0, whole) && Named(whole) && c0.byId == whole.byId && c0.indexes == map[]
    requires GatheredParts(gathered, whole)
    ensures Sound(c, whole) && c.byId == whole.byId && c.indexes == whole.indexes
  {
    c := c0;
    var left := gathered.Keys;
    NoneYet(c, whole);
    while left != {}
      invariant Partway(c, whole, left)
      decreases |left|
    {
      var x :| x in left;
      c := InsertGathered(c, gathered, x, whole, left);
      left := left - {x};
    }
    AllIndexes(c, whole);
  }

  lemma {:induction false} OneLess(all: set<nat>, left: set<nat>, x: nat)
    requires x in left && left <= all
    ensures (all - left) + {x} == all - (left - {x})
  {
  }

  lemma {:induction false} NoneYet(c: Cache, whole: Cache)
    requires Sound(c, whole) && c.byId == whole.byId && c.indexes == map[]
    ensures Partway(c, whole, whole.indexes.Keys)
  {
  }

  lemma {:induction false} AllIndexes(c: Cache, whole: Cache)
    requires Partway(c, whole, {})
    ensures Sound(c, whole) && c.byId == whole.byId && c.indexes == whole.indexes
  {
  }

  lemma {:induction false} TablesRoster(host: Host, whole: Cache, at: Places, t: Tables, tableEntries: Listing,
                                        columnEntries: Listing, pieces: seq<Piece<ColumnDef>>,
                                        columns: map<nat, Numbered<ColumnDef>>, tables: seq<Entry>)
    requires FloatsReadBack(host) && Stored(host, whole.byId, whole.indexes, at, t)
    requires Lists(t[TABLES], tableEntries) && Lists(t[COLUMNS], columnEntries)
    requires |pieces| == |columnEntries| && forall i :: 0 <= i < |columnEntries| ==>
             ColumnPiece(host, columnEntries[i].1, pieces[i])
    requires forall owner :: AtOrEmpty(columns, owner) == Of(pieces, owner)
    requires |tables| == |tableEntries| && forall i :: 0 <= i < |tables| ==>
             TableEntry(tableEntries[i].1, columns, tables[i])
    ensures Roster(tables, whole)
    ensures forall id :: id in whole.byId ==> exists i :: 0 <= i < |tables| && tables[i].id == id
  {
    forall id | id in whole.byId ensures id < U32 {
      assert TableAt(whole.byId, at.tables, t[TABLES], id);
    }
    forall i | 0 <= i < |tables|
      ensures tables[i].id in whole.byId && whole.byId[tables[i].id] == tables[i]
      ensures tables[i].id in at.tables && at.tables[tables[i].id] == tableEntries[i].0
    {
      var id := TableRowReads(whole.byId, at.tables, t[TABLES], tableEntries[i].0);
      assert TableEntry(tableEntries[i].1, columns, tables[i]);
      ColumnsComeBack(host, whole.byId, at.columns, t[COLUMNS], columnEntries, pieces, id);
    }
    forall id | id in whole.byId ensures exists i :: 0 <= i < |tables| && tables[i].id == id {
      var i := TableListed(whole.byId, at.tables, t[TABLES], tableEntries, id);
      assert TableEntry(tableEntries[i].1, columns, tables[i]);
    }
  }

  lemma {:induction false} TableIdsAll(tables: seq<Entry>, i: nat)
    requires i < |tables|
    ensures tables[i].id in TableIds(tables)
  {
    if i < |tables| - 1 {
      TableIdsAll(tables[..|tables| - 1], i);
      assert tables[..|tables| - 1][i] == tables[i];
    }
  }

  lemma {:induction false} AllTables(tables: seq<Entry>, whole: Cache, c: Cache)
    requires Roster(tables, whole) && PartOfCache(c, whole) && c.byId.Keys == TableIds(tables)
    requires forall id :: id in whole.byId ==> exists i :: 0 <= i < |tables| && tables[i].id == id
    ensures c.byId == whole.byId
  {
    forall id | id in whole.byId ensures id in c.byId {
      var i :| 0 <= i < |tables| && tables[i].id == id;
      TableIdsAll(tables, i);
    }
  }

  lemma {:induction false} PartsFor(whole: Cache, at: map<(nat, nat), RowId>, rows: Rows, entries: Listing,
                                    pieces: seq<Piece<IndexPart>>, gathered: map<nat, Numbered<IndexPart>>, x: nat)
    requires x in whole.indexes ==> IndexNameOk(whole, x)
    requires IndexesStored(whole.indexes, at, rows) && Lists(rows, entries)
    requires |pieces| == |entries| && forall i :: 0 <= i < |entries| ==> IndexPiece(entries[i].1, pieces[i])
    requires AtOrEmpty(gathered, x) == Of(pieces, x) && (x in gathered <==> Of(pieces, x) != [])
    ensures x in gathered <==> x in whole.indexes
    ensures x in gathered ==> gathered[x] != [] && Payloads(Sort(gathered[x])) == Parts(whole.indexes[x])
  {
    IndexComesBack(whole.indexes, at, rows, entries, pieces, x);
  }

  ghost predicate GatheredAt(gathered: map<nat, Numbered<IndexPart>>, whole: Cache, x: nat) {
    && (x in gathered <==> x in whole.indexes)
    && (x in gathered ==> gathered[x] != [] && Payloads(Sort(gathered[x])) == Parts(whole.indexes[x]))
  }

  lemma {:induction false} GatheredEverywhere(gathered: map<nat, Numbered<IndexPart>>, whole: Cache)
    requires forall x: nat :: GatheredAt(gathered, whole, x)
    ensures GatheredParts(gathered, whole)
  {
    forall x | x in gathered ensures x in whole.indexes && gathered[x] != []
      && Payloads(Sort(gathered[x])) == Parts(whole.indexes[x]) {
      assert GatheredAt(gathered, whole, x);
    }
    forall x | x in whole.indexes ensures x in gathered {
      assert GatheredAt(gathered, whole, x);
    }
  }

  lemma {:induction false} AllParts(whole: Cache, at: map<(nat, nat), RowId>, rows: Rows, entries: Listing,
                                    pieces: seq<Piece<IndexPart>>, gathered: map<nat, Numbered<IndexPart>>)
    requires Named(whole) && IndexesStored(whole.indexes, at, rows) && Lists(rows, entries)
    requires |pieces| == |entries| && forall i :: 0 <= i < |entries| ==> IndexPiece(entries[i].1, pieces[i])
    requires forall owner :: AtOrEmpty(gathered, owner) == Of(pieces, owner)
    requires forall owner :: owner in gathered <==> Of(pieces, owner) != []
    ensures GatheredParts(gathered, whole)
  {
    forall x: nat ensures GatheredAt(gathered, whole, x) {
      assert AtOrEmpty(gathered, x) == Of(pieces, x);
      PartsFor(whole, at, rows, entries, pieces, gathered, x);
    }
    GatheredEverywhere(gathered, whole);
  }

  lemma {:induction false} EveryRowReads(host: Host, whole: Cache, at: Places, t: Tables)
    requires FloatsReadBack(host) && Stored(host, whole.byId, whole.indexes, at, t)
    ensures forall r :: r in t[TABLES] ==> ReadTable(t[TABLES][r]).Some?
    ensures forall r :: r in t[COLUMNS] ==> ReadColumn(host, t[COLUMNS][r]).Some?
    ensures forall r :: r in t[INDEXES] ==> ReadIndex(t[INDEXES][r]).Some?
  {
    forall id | id in whole.byId ensures id < U32 {
      assert TableAt(whole.byId, at.tables, t[TABLES], id);
    }
    forall r | r in t[TABLES] ensures ReadTable(t[TABLES][r]).Some? {
      var id := TableRowReads(whole.byId, at.tables, t[TABLES], r);
    }
    forall r | r in t[COLUMNS] ensures ReadColumn(host, t[COLUMNS][r]).Some? {
      var k := ColumnRowReads(host, whole.byId, at.columns, t[COLUMNS], r);
    }
    forall r | r in t[INDEXES] ensures ReadIndex(t[INDEXES][r]).Some? {
      var k := IndexRowReads(whole.indexes, at.indexes, t[INDEXES], r);
    }
  }

  // `read_all` and the rebuilding that follows it. Whatever the rows describe is what comes out.
  method Rebuild(host: Host, tableEntries: Listing, columnEntries: Listing, indexEntries: Listing, ghost whole: Cache,
                 ghost at: Places, ghost t: Tables) returns (r: Option<Cache>)
    requires FloatsReadBack(host) && Stored(host, whole.byId, whole.indexes, at, t) && Named(whole)
    requires Lists(t[TABLES], tableEntries) && Lists(t[COLUMNS], columnEntries) && Lists(t[INDEXES], indexEntries)
    ensures r.Some? && Named(r.value) && Ahead(r.value) && Tight(r.value)
    ensures r.value.byId == whole.byId && r.value.indexes == whole.indexes
    ensures r.value.byName == whole.byName && r.value.indexByName == whole.indexByName
  {
    EveryRowReads(host, whole, at, t);
    var columnPieces := ReadColumns(host, columnEntries);
    if columnPieces.None? {
      return None;
    }
    var columns := Gather(columnPieces.value);
    var tables := ReadTables(tableEntries, columns);
    if tables.None? {
      return None;
    }
    var indexPieces := ReadIndexes(indexEntries);
    if indexPieces.None? {
      return None;
    }
    var parts := Gather(indexPieces.value);
    TablesRoster(host, whole, at, t, tableEntries, columnEntries, columnPieces.value, columns, tables.value);
    AllParts(whole, at.indexes, t[INDEXES], indexEntries, indexPieces.value, parts);
    var c := InsertTables(tables.value, whole);
    AllTables(tables.value, whole, c);
    c := InsertIndexes(c, parts, whole);
    NamesFollow(c, whole);
    return Some(c);
  }
}
