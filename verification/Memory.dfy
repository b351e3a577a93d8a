// The in-memory storage engine: writes are applied at once and reversed from an undo log.
module Memory {
  import opened Wrappers
  import opened Values

  type TableId = nat
  type RowId = nat
  type TxnId = nat
  type Rows = map<RowId, Row>
  type Tables = map<TableId, Rows>

  datatype StorageError =
    | TxnNotActive(txn: TxnId)
    | TableNotFound(table: TableId)
    | TableExists(table: TableId)
    | RowNotFound
    | UniqueViolation(constraint: string)

  datatype Undo =
    | UndoInsert(table: TableId, row: RowId)
    | UndoDelete(table: TableId, row: RowId, old_: Row)
    | UndoCreate(table: TableId)
    | UndoDrop(table: TableId, rows: Rows)

  function Store(rows: Rows, id: RowId, row: Row): Rows { rows[id := row] }

  // ------------------------------------------------------------- undoing

  function UndoOne(t: Tables, u: Undo): Tables {
    match u
    case UndoInsert(table, row) => if table in t then t[table := t[table] - {row}] else t
    case UndoDelete(table, row, old_) => if table in t then t[table := Store(t[table], row, old_)] else t
    case UndoCreate(table) => t - {table}
    case UndoDrop(table, rows) => t[table := rows]
  }

  // The log taken back, last entry first.
  function Undone(t: Tables, log: seq<Undo>): Tables
    decreases |log|
  {
    if log == [] then t else Undone(UndoOne(t, log[|log| - 1]), log[..|log| - 1])
  }

  lemma {:induction false} UndoneStep(t: Tables, t': Tables, log: seq<Undo>, u: Undo)
    requires UndoOne(t', u) == t
    ensures Undone(t', log + [u]) == Undone(t, log)
  {
    assert (log + [u])[..|log|] == log;
  }

  ghost predicate RowsFit(rows: Rows, limit: RowId) { forall r :: r in rows ==> r <= limit }

  ghost predicate TablesFit(t: Tables, limit: RowId) {
    forall x {:trigger RowsFit(t[x], limit)} :: x in t ==> RowsFit(t[x], limit)
  }

  // No undo entry brings back a row id that was never given out.
  ghost predicate LogFits(log: seq<Undo>, limit: RowId) {
    forall i :: 0 <= i < |log| ==>
      match log[i]
      case UndoDelete(_, row, _) => row <= limit
      case UndoDrop(_, rows) => RowsFit(rows, limit)
      case _ => true
  }

  ghost predicate LogsFit(active: map<TxnId, seq<Undo>>, last: TxnId, limit: RowId) {
    forall x {:trigger LogFits(active[x], limit)} :: x in active ==> x <= last && LogFits(active[x], limit)
  }

  lemma {:induction false} TableFits(t: Tables, table: TableId, rows: Rows, limit: RowId)
    requires TablesFit(t, limit) && RowsFit(rows, limit)
    ensures TablesFit(t[table := rows], limit) && TablesFit(t - {table}, limit)
  {
    forall x | x in t ensures RowsFit(t[x], limit) {
      assert RowsFit(t[x], limit);
    }
  }

  lemma {:induction false} TableHeld(t: Tables, table: TableId, limit: RowId)
    requires TablesFit(t, limit) && table in t
    ensures RowsFit(t[table], limit)
  {
    assert RowsFit(t[table], limit);
  }

  lemma {:induction false} LogHeld(active: map<TxnId, seq<Undo>>, last: TxnId, limit: RowId, txn: TxnId)
    requires LogsFit(active, last, limit) && txn in active
    ensures txn <= last && LogFits(active[txn], limit)
  {
    assert LogFits(active[txn], limit);
  }

  lemma {:induction false} LogAdded(active: map<TxnId, seq<Undo>>, last: TxnId, limit: RowId, txn: TxnId,
                                    log: seq<Undo>)
    requires LogsFit(active, last, limit) && txn <= last && LogFits(log, limit)
    ensures LogsFit(active[txn := log], last, limit) && LogsFit(active - {txn}, last, limit)
  {
    forall x | x in active ensures x <= last && LogFits(active[x], limit) {
      LogHeld(active, last, limit, x);
    }
  }

  // Handing out another id or transaction keeps all of it.
  lemma {:induction false} MoreRoom(t: Tables, active: map<TxnId, seq<Undo>>, last: TxnId, limit: RowId, last': TxnId,
                                    limit': RowId)
    requires TablesFit(t, limit) && LogsFit(active, last, limit) && last <= last' && limit <= limit'
    ensures TablesFit(t, limit') && LogsFit(active, last', limit')
  {
    forall x | x in t ensures RowsFit(t[x], limit') {
      TableHeld(t, x, limit);
    }
    forall x | x in active ensures x <= last' && LogFits(active[x], limit') {
      LogHeld(active, last, limit, x);
      LogRoom(active[x], limit, limit');
    }
  }

  lemma {:induction false} LogRoom(log: seq<Undo>, limit: RowId, limit': RowId)
    requires LogFits(log, limit) && limit <= limit'
    ensures LogFits(log, limit')
  {
  }

  lemma {:induction false} UndoneFits(t: Tables, log: seq<Undo>, limit: RowId)
    requires TablesFit(t, limit) && LogFits(log, limit)
    ensures TablesFit(Undone(t, log), limit)
    decreases |log|
  {
    if log != [] {
      UndoOneFits(t, log[|log| - 1], log, limit);
      UndoneFits(UndoOne(t, log[|log| - 1]), log[..|log| - 1], limit);
    }
  }

  lemma {:induction false} UndoOneFits(t: Tables, u: Undo, log: seq<Undo>, limit: RowId)
    requires TablesFit(t, limit) && LogFits(log, limit) && log != [] && log[|log| - 1] == u
    ensures TablesFit(UndoOne(t, u), limit)
  {
    match u
    case UndoInsert(table, row) =>
      if table in t {
        TableHeld(t, table, limit);
        TableFits(t, table, t[table] - {row}, limit);
      }
    case UndoDelete(table, row, old_) =>
      if table in t {
        TableHeld(t, table, limit);
        TableFits(t, table, Store(t[table], row, old_), limit);
      }
    case UndoCreate(table) => TableFits(t, table, map[], limit);
    case UndoDrop(table, rows) => TableFits(t, table, rows, limit);
  }

  // -------------------------------------------------------- unique keys

  datatype UniqueKey = UniqueKey(name: string, columns: seq<nat>)

  // The key values of a row, or nothing if one of them is null or missing.
  function Extract(columns: seq<nat>, row: Row): Option<Row> {
    if columns == [] then Some([])
    else
      var n := |columns| - 1;
      match Extract(columns[..n], row)
      case None => None
      case Some(front) =>
        if columns[n] < |row| && row[columns[n]] != Null then Some(front + [row[columns[n]]]) else None
  }

  ghost predicate Clashes(row: Row, existing: Row, key: UniqueKey) {
    Extract(key.columns, row).Some? && Extract(key.columns, existing) == Extract(key.columns, row)
  }

  // Some stored row already carries a key of `row`.
  ghost predicate Clash(rows: Rows, row: Row, unique: seq<UniqueKey>) {
    exists r, k :: r in rows && 0 <= k < |unique| && Clashes(row, rows[r], unique[k])
  }

  // -------------------------------------------------------- enumeration

  function Ids(entries: seq<(RowId, Row)>): set<RowId> {
    if entries == [] then {} else Ids(entries[..|entries| - 1]) + {entries[|entries| - 1].0}
  }

  lemma {:induction false} Listed(entries: seq<(RowId, Row)>, r: RowId) returns (i: nat)
    requires r in Ids(entries)
    ensures i < |entries| && entries[i].0 == r
  {
    var n := |entries| - 1;
    if entries[n].0 == r {
      i := n;
    } else {
      i := Listed(entries[..n], r);
    }
  }

  // A table's rows in row-id order, each once.
  ghost predicate Lists(rows: Rows, entries: seq<(RowId, Row)>) {
    && (forall i :: 0 <= i < |entries| ==> entries[i].0 in rows && rows[entries[i].0] == entries[i].1)
    && (forall i, j :: 0 <= i < j < |entries| ==> entries[i].0 < entries[j].0)
    && Ids(entries) == rows.Keys
  }

  lemma {:induction false} LeastExists(s: set<nat>) returns (x: nat)
    requires s != {}
    ensures x in s && forall y :: y in s ==> x <= y
  {
    var z :| z in s;
    if s == {z} {
      x := z;
    } else {
      var w := LeastExists(s - {z});
      x := if w <= z then w else z;
      forall y | y in s ensures x <= y {
        assert y == z || y in s - {z};
      }
    }
  }

  lemma {:induction false} IdsStep(entries: seq<(RowId, Row)>, e: (RowId, Row))
    ensures Ids(entries + [e]) == Ids(entries) + {e.0}
  {
    assert (entries + [e])[..|entries|] == entries;
  }

  // Listed so far: everything smaller than what is left.
  ghost predicate ListsBefore(rows: Rows, entries: seq<(RowId, Row)>, left: set<RowId>) {
    && (forall i :: 0 <= i < |entries| ==> entries[i].0 in rows && rows[entries[i].0] == entries[i].1)
    && (forall i, j :: 0 <= i < j < |entries| ==> entries[i].0 < entries[j].0)
    && (forall i, r :: 0 <= i < |entries| && r in left ==> entries[i].0 < r)
    && Ids(entries) + left == rows.Keys
  }

  lemma {:induction false} ListNext(rows: Rows, entries: seq<(RowId, Row)>, left: set<RowId>, r: RowId)
    requires ListsBefore(rows, entries, left) && r in left && r in rows && forall y :: y in left ==> r <= y
    ensures ListsBefore(rows, entries + [(r, rows[r])], left - {r})
  {
    IdsStep(entries, (r, rows[r]));
  }

  method Enumerate(rows: Rows) returns (entries: seq<(RowId, Row)>)
    ensures Lists(rows, entries)
  {
    entries := [];
    var left := rows.Keys;
    while left != {}
      invariant ListsBefore(rows, entries, left)
      decreases |left|
    {
      ghost var least := LeastExists(left);
      var r :| r in left && forall y :: y in left ==> r <= y;
      ListNext(rows, entries, left, r);
      entries := entries + [(r, rows[r])];
      left := left - {r};
    }
  }

  method CheckOne(row: Row, existing: Row, unique: seq<UniqueKey>) returns (bad: Option<string>)
    ensures bad.Some? <==> exists k :: 0 <= k < |unique| && Clashes(row, existing, unique[k])
  {
    for k := 0 to |unique|
      invariant forall j :: 0 <= j < k ==> !Clashes(row, existing, unique[j])
    {
      var wanted := Extract(unique[k].columns, row);
      if wanted.Some? && Extract(unique[k].columns, existing) == wanted {
        assert Clashes(row, existing, unique[k]);
        return Some(unique[k].name);
      }
    }
    return None;
  }

  // `check_unique_by_scan`, over the rows of the scan.
  method CheckUnique(ghost rows: Rows, entries: seq<(RowId, Row)>, row: Row, unique: seq<UniqueKey>)
    returns (bad: Option<string>)
    requires Lists(rows, entries)
    ensures bad.Some? <==> Clash(rows, row, unique)
  {
    for i := 0 to |entries|
      invariant forall j, k :: 0 <= j < i && 0 <= k < |unique| ==> !Clashes(row, entries[j].1, unique[k])
    {
      bad := CheckOne(row, entries[i].1, unique);
      if bad.Some? {
        ghost var k :| 0 <= k < |unique| && Clashes(row, entries[i].1, unique[k]);
        assert entries[i].0 in rows && Clashes(row, rows[entries[i].0], unique[k]);
        return;
      }
    }
    NoClash(rows, entries, row, unique);
    return None;
  }

  lemma {:induction false} NoClash(rows: Rows, entries: seq<(RowId, Row)>, row: Row, unique: seq<UniqueKey>)
    requires Lists(rows, entries)
    requires forall j, k :: 0 <= j < |entries| && 0 <= k < |unique| ==> !Clashes(row, entries[j].1, unique[k])
    ensures !Clash(rows, row, unique)
  {
    forall r, k | r in rows && 0 <= k < |unique| ensures !Clashes(row, rows[r], unique[k]) {
      var i := Listed(entries, r);
      assert rows[r] == entries[i].1;
    }
  }

  class MemoryStorage {
    var tables: Tables
    var active: map<TxnId, seq<Undo>>
    var nextTxn: TxnId
    var nextRow: RowId
    var committed: seq<TxnId>

    constructor ()
      ensures Valid() && tables == map[] && active == map[]
    {
      tables, active, nextTxn, nextRow, committed := map[], map[], 0, 0, [];
    }

    ghost predicate Valid()
      reads this
    {
      TablesFit(tables, nextRow) && LogsFit(active, nextTxn, nextRow)
    }

    // The tables as they were when the transaction began.
    ghost function Base(txn: TxnId): Tables
      requires txn in active
      reads this
    {
      Undone(tables, active[txn])
    }

    method Begin() returns (txn: TxnId)
      requires Valid()
      modifies this
      ensures Valid() && txn !in old(active) && active == old(active)[txn := []]
      ensures tables == old(tables) && nextRow == old(nextRow) && Base(txn) == tables
    {
      MoreRoom(tables, active, nextTxn, nextRow, nextTxn + 1, nextRow);
      assert nextTxn + 1 !in active by {
        if nextTxn + 1 in active {
          LogHeld(active, nextTxn, nextRow, nextTxn + 1);
        }
      }
      nextTxn := nextTxn + 1;
      txn := nextTxn;
      LogAdded(active, nextTxn, nextRow, txn, []);
      active := active[txn := []];
    }

    method Finish(txn: TxnId) returns (r: Result<(), StorageError>)
      requires Valid()
      modifies this
      ensures Valid() && tables == old(tables) && nextRow == old(nextRow)
      ensures r == if txn in old(active) then Ok(()) else Err(TxnNotActive(txn))
      ensures active == old(active) - {txn}
    {
      if txn !in active {
        return Err(TxnNotActive(txn));
      }
      LogHeld(active, nextTxn, nextRow, txn);
      LogAdded(active, nextTxn, nextRow, txn, []);
      active := active - {txn};
      committed := committed + [txn];
      return Ok(());
    }

    // Everything the transaction wrote is taken back.
    method Abort(txn: TxnId) returns (r: Result<(), StorageError>)
      requires Valid()
      modifies this
      ensures Valid()
      ensures r == if txn in old(active) then Ok(()) else Err(TxnNotActive(txn))
      ensures tables == if txn in old(active) then old(Base(txn)) else old(tables)
      ensures active == old(active) - {txn} && nextRow == old(nextRow) && nextTxn == old(nextTxn)
    {
      if txn !in active {
        return Err(TxnNotActive(txn));
      }
      var log := active[txn];
      LogHeld(active, nextTxn, nextRow, txn);
      LogAdded(active, nextTxn, nextRow, txn, []);
      active := active - {txn};
      ghost var base := Undone(tables, log);
      UndoneFits(tables, log, nextRow);
      while log != []
        invariant Undone(tables, log) == base
        invariant active == old(active) - {txn} && nextRow == old(nextRow) && nextTxn == old(nextTxn)
        decreases |log|
      {
        tables := UndoOne(tables, log[|log| - 1]);
        log := log[..|log| - 1];
      }
      return Ok(());
    }

    method Insert(txn: TxnId, table: TableId, row: Row) returns (r: Result<RowId, StorageError>)
      requires Valid()
      modifies this
      ensures Valid() && nextTxn == old(nextTxn)
      ensures txn !in old(active) ==> r == Err(TxnNotActive(txn)) && tables == old(tables) && active == old(active)
      ensures txn in old(active) && table !in old(tables) ==>
              r == Err(TableNotFound(table)) && tables == old(tables) && active == old(active)
      ensures txn in old(active) && table in old(tables) ==>
              && r.Ok? && r.value !in old(tables)[table]
                && tables == old(tables)[table := Store(old(tables)[table], r.value, row)]
              && active.Keys == old(active).Keys && Base(txn) == old(Base(txn))
    {
      if txn !in active {
        return Err(TxnNotActive(txn));
      }
      MoreRoom(tables, active, nextTxn, nextRow, nextTxn, nextRow + 1);
      ghost var limit := nextRow;
      nextRow := nextRow + 1;
      var id := nextRow;
      if table !in tables {
        return Err(TableNotFound(table));
      }
      ghost var before := tables;
      TableHeld(tables, table, limit);
      assert id !in tables[table];
      tables := tables[table := Store(tables[table], id, row)];
      TableFits(before, table, tables[table], nextRow);
      assert tables[table] - {id} == before[table];
      assert UndoOne(tables, UndoInsert(table, id)) == before;
      UndoneStep(before, tables, active[txn], UndoInsert(table, id));
      LogHeld(active, nextTxn, nextRow, txn);
      LogAdded(active, nextTxn, nextRow, txn, active[txn] + [UndoInsert(table, id)]);
      active := active[txn := active[txn] + [UndoInsert(table, id)]];
      return Ok(id);
    }

    method Delete(txn: TxnId, table: TableId, row: RowId) returns (r: Result<(), StorageError>)
      requires Valid()
      modifies this
      ensures Valid() && nextTxn == old(nextTxn)
      ensures txn in old(active) && table in old(tables) && row in old(tables)[table] ==>
              && r.Ok? && tables == old(tables)[table := old(tables)[table] - {row}]
              && active.Keys == old(active).Keys && Base(txn) == old(Base(txn))
      ensures !(txn in old(active) && table in old(tables) && row in old(tables)[table]) ==>
              r.Err? && tables == old(tables) && active == old(active)
    {
      if txn !in active {
        return Err(TxnNotActive(txn));
      }
      if table !in tables {
        return Err(TableNotFound(table));
      }
      if row !in tables[table] {
        return Err(RowNotFound);
      }
      ghost var before := tables;
      var old_ := tables[table][row];
      TableHeld(tables, table, nextRow);
      tables := tables[table := tables[table] - {row}];
      TableFits(before, table, tables[table], nextRow);
      assert Store(tables[table], row, old_) == before[table];
      assert UndoOne(tables, UndoDelete(table, row, old_)) == before;
      UndoneStep(before, tables, active[txn], UndoDelete(table, row, old_));
      LogHeld(active, nextTxn, nextRow, txn);
      LogAdded(active, nextTxn, nextRow, txn, active[txn] + [UndoDelete(table, row, old_)]);
      active := active[txn := active[txn] + [UndoDelete(table, row, old_)]];
      return Ok(());
    }

    method CreateTable(txn: TxnId, table: TableId) returns (r: Result<(), StorageError>)
      requires Valid()
      modifies this
      ensures Valid() && nextTxn == old(nextTxn)
      ensures txn in old(active) && table !in old(tables) ==>
              && r.Ok? && tables == old(tables)[table := map[]]
              && active.Keys == old(active).Keys && Base(txn) == old(Base(txn))
      ensures !(txn in old(active) && table !in old(tables)) ==>
              r.Err? && tables == old(tables) && active == old(active)
    {
      if txn !in active {
        return Err(TxnNotActive(txn));
      }
      if table in tables {
        return Err(TableExists(table));
      }
      ghost var before := tables;
      tables := tables[table := map[]];
      TableFits(before, table, map[], nextRow);
      assert UndoOne(tables, UndoCreate(table)) == before;
      UndoneStep(before, tables, active[txn], UndoCreate(table));
      LogHeld(active, nextTxn, nextRow, txn);
      LogAdded(active, nextTxn, nextRow, txn, active[txn] + [UndoCreate(table)]);
      active := active[txn := active[txn] + [UndoCreate(table)]];
      return Ok(());
    }

    method DropTable(txn: TxnId, table: TableId) returns (r: Result<(), StorageError>)
      requires Valid()
      modifies this
      ensures Valid() && nextTxn == old(nextTxn)
      ensures txn in old(active) && table in old(tables) ==>
              && r.Ok? && tables == old(tables) - {table}
              && active.Keys == old(active).Keys && Base(txn) == old(Base(txn))
      ensures !(txn in old(active) && table in old(tables)) ==> r.Err? && tables == old(tables) && active == old(active)
    {
      if txn !in active {
        return Err(TxnNotActive(txn));
      }
      if table !in tables {
        return Err(TableNotFound(table));
      }
      ghost var before := tables;
      var rows := tables[table];
      TableHeld(tables, table, nextRow);
      TableFits(tables, table, rows, nextRow);
      tables := tables - {table};
      assert UndoOne(tables, UndoDrop(table, rows)) == before;
      UndoneStep(before, tables, active[txn], UndoDrop(table, rows));
      LogHeld(active, nextTxn, nextRow, txn);
      LogAdded(active, nextTxn, nextRow, txn, active[txn] + [UndoDrop(table, rows)]);
      active := active[txn := active[txn] + [UndoDrop(table, rows)]];
      return Ok(());
    }

    method Scan(txn: TxnId, table: TableId) returns (r: Result<seq<(RowId, Row)>, StorageError>)
      ensures r.Ok? <==> txn in active && table in tables
      ensures r.Ok? ==> Lists(tables[table], r.value)
    {
      if txn !in active {
        return Err(TxnNotActive(txn));
      }
      if table !in tables {
        return Err(TableNotFound(table));
      }
      var entries := Enumerate(tables[table]);
      return Ok(entries);
    }

    // The default `insert_unique`: checks by scanning, then writes.
    method InsertUnique(txn: TxnId, table: TableId, row: Row, unique: seq<UniqueKey>)
      returns (r: Result<RowId, StorageError>)
      requires Valid()
      modifies this
      ensures Valid() && nextTxn == old(nextTxn) && active.Keys == old(active).Keys
      ensures txn in old(active) ==> Base(txn) == old(Base(txn))
      ensures r.Ok? <==> txn in old(active) && table in old(tables) && !Clash(old(tables)[table], row, unique)
      ensures r.Ok? ==>
              r.value !in old(tables)[table] && tables == old(tables)[table := Store(old(tables)[table], r.value, row)]
      ensures r.Err? ==> tables == old(tables)
    {
      var entries := Scan(txn, table);
      match entries
      case Err(e) => return Err(e);
      case Ok(found) =>
        var bad := CheckUnique(tables[table], found, row, unique);
        if bad.Some? {
          return Err(UniqueViolation(bad.value));
        }
        r := Insert(txn, table, row);
    }
  }
}
