// How the catalog writes itself down: one row per table, per column and per index column, and
// a column's DEFAULT as a tagged string.
module CatalogRows {
  import opened Wrappers
  import opened Values
  import opened Text
  import opened Numerals

  datatype ColumnDefault = CurrentTimestamp | Constant(value: Value)

  datatype ColumnDef = ColumnDef(name: string, dataType: DataType, nullable: bool, default_: Option<ColumnDefault>)

  // Which numbers are floating-point numbers, and how those are printed and read.
  datatype Host = Host(isFloat: real -> bool, floatText: real -> string, floatParse: string -> Option<real>)

  ghost predicate FloatsReadBack(host: Host) {
    forall f :: host.isFloat(f) ==> host.floatParse(host.floatText(f)) == Some(f)
  }

  // A host whose floating-point numbers are the 64-bit integers.
  const WHOLE_FLOATS: Host :=
    Host((f: real) => f == f.Floor as real && -0x8000_0000_0000_0000 <= f.Floor < 0x8000_0000_0000_0000,
         (f: real) => Signed(f.Floor),
         (s: string) => match ParseI64(s) case None => None case Some(n) => Some(n as real))

  // There are hosts whose floats read back.
  lemma {:induction false} WholeFloatsReadBack()
    ensures FloatsReadBack(WHOLE_FLOATS) && WHOLE_FLOATS.isFloat(1.0)
  {
    forall f | WHOLE_FLOATS.isFloat(f) ensures WHOLE_FLOATS.floatParse(WHOLE_FLOATS.floatText(f)) == Some(f) {
      SignedReadsBack(f.Floor);
    }
  }

  // ------------------------------------------------------------ constants

  function EncodeConstant(host: Host, value: Value, ty: DataType): Option<string> {
    if TypeOf(value) != Some(ty) then None
    else match value
      case Boolean(b) => Some(if b then "true" else "false")
      case Int4(n) => Some(Signed(n))
      case Int8(n) => Some(Signed(n))
      case Float8(f) => Some(host.floatText(f))
      case Text(s) => Some(s)
      case Json(s) => Some(s)
      case Timestamp(n) => Some(Signed(n))
      case Uuid(u) => Some(Hex(u, 32))
      case Null => None
  }

  function Mapped<T, U>(o: Option<T>, f: T -> U): Option<U> {
    match o case None => None case Some(x) => Some(f(x))
  }

  function DecodeConstant(host: Host, body: string, ty: DataType): Option<Value> {
    match ty
    case BooleanType => if body == "true" then Some(Boolean(true)) else if body == "false" then Some(Boolean(false))
      else None
    case Int4Type => Mapped(ParseI32(body), n => Int4(n))
    case Int8Type => Mapped(ParseI64(body), n => Int8(n))
    case Float8Type => Mapped(host.floatParse(body), f => Float8(f))
    case TextType => Some(Text(body))
    case JsonType => Some(Json(body))
    case TimestampType => Mapped(ParseI64(body), n => Timestamp(n))
    case UuidType => Mapped(ParseHex(body), u => Uuid(u))
  }

  // Values the engine's types can hold.
  ghost predicate Representable(host: Host, v: Value) {
    match v
    case Float8(f) => host.isFloat(f)
    case Int4(n) => -0x8000_0000 <= n < 0x8000_0000
    case Int8(n) => -0x8000_0000_0000_0000 <= n < 0x8000_0000_0000_0000
    case Timestamp(n) => -0x8000_0000_0000_0000 <= n < 0x8000_0000_0000_0000
    case Uuid(u) => u < Pow16(32)
    case _ => true
  }

  // ------------------------------------------------------------- defaults

  function EncodeDefault(host: Host, d: ColumnDefault, ty: DataType): Option<string> {
    match d
    case CurrentTimestamp => Some("f:now")
    case Constant(v) =>
      if v == Null then Some("n")
      else match EncodeConstant(host, v, ty) case None => None case Some(s) => Some("v:" + s)
  }

  function DecodeDefault(host: Host, s: string, ty: DataType): Option<ColumnDefault> {
    if s == "n" then Some(Constant(Null))
    else if s == "f:now" then Some(CurrentTimestamp)
    else if |s| >= 2 && s[..2] == "v:" then
      match DecodeConstant(host, s[2..], ty) case None => None case Some(v) => Some(Constant(v))
    else None
  }

  lemma {:induction false} ConstantReadsBack(host: Host, v: Value, ty: DataType)
    requires FloatsReadBack(host) && Representable(host, v) && EncodeConstant(host, v, ty).Some?
    ensures DecodeConstant(host, EncodeConstant(host, v, ty).value, ty) == Some(v)
  {
    match v
    case Int4(n) => SignedReadsBack(n);
    case Int8(n) => SignedReadsBack(n);
    case Timestamp(n) => SignedReadsBack(n);
    case Uuid(u) =>
      HexReadsBack(u, 32);
      assert Hex(u, 32)[0] == Hex(u, 32)[..31][0];
      HexNoPlus(u, 32);
    case _ =>
  }

  lemma {:induction false} HexNoPlus(n: nat, w: nat)
    requires w > 0
    ensures Hex(n, w)[0] != '+'
  {
    if w > 1 {
      HexNoPlus(n / 16, w - 1);
      assert Hex(n, w)[0] == Hex(n / 16, w - 1)[0];
    } else {
      assert Hex(n / 16, 0) == [];
      HexDigitBack(n % 16);
    }
  }

  // A default that can be written down at all reads back as itself, and it can be written down
  // exactly when it is the clock, null, or a constant of the column's own type.
  lemma {:induction false} DefaultReadsBack(host: Host, d: ColumnDefault, ty: DataType)
    requires FloatsReadBack(host) && (d.Constant? ==> Representable(host, d.value))
    ensures EncodeDefault(host, d, ty).Some? <==> d.CurrentTimestamp? || d.value == Null || TypeOf(d.value) == Some(ty)
    ensures EncodeDefault(host, d, ty).Some? ==> DecodeDefault(host, EncodeDefault(host, d, ty).value, ty) == Some(d)
  {
    if d.Constant? && d.value != Null && EncodeConstant(host, d.value, ty).Some? {
      ConstantReadsBack(host, d.value, ty);
      var s := EncodeConstant(host, d.value, ty).value;
      assert ("v:" + s)[..2] == "v:" && ("v:" + s)[2..] == s;
      assert ("v:" + s)[0] == 'v';
    }
  }

  // ----------------------------------------------------------------- rows

  function TypeName(ty: DataType): string {
    match ty
    case BooleanType => "boolean"
    case Int4Type => "int4"
    case Int8Type => "int8"
    case Float8Type => "float8"
    case TextType => "text"
    case TimestampType => "timestamp"
    case UuidType => "uuid"
    case JsonType => "json"
  }

  function TypeFromName(s: string): Option<DataType> {
    if s == "boolean" then Some(BooleanType)
    else if s == "int4" then Some(Int4Type)
    else if s == "int8" then Some(Int8Type)
    else if s == "float8" then Some(Float8Type)
    else if s == "text" then Some(TextType)
    else if s == "timestamp" then Some(TimestampType)
    else if s == "uuid" then Some(UuidType)
    else if s == "json" then Some(JsonType)
    else None
  }

  const U32: nat := 0x1_0000_0000
  const MAX_ORDINAL: nat := 0x7FFF_FFFF

  function Name(row: Row, i: nat): Option<string> {
    if i < |row| && row[i].Text? then Some(row[i].s) else None
  }

  function ObjectId(row: Row, i: nat): Option<nat> {
    if i < |row| && row[i].Int8? && 0 <= row[i].i < U32 then Some(row[i].i) else None
  }

  function Ordinal(row: Row, i: nat): Option<nat> {
    if i < |row| && row[i].Int4? && 0 <= row[i].i then Some(row[i].i) else None
  }

  function Flag(row: Row, i: nat): Option<bool> {
    if i < |row| && row[i].Boolean? then Some(row[i].b) else None
  }

  datatype TableRecord = TableRecord(id: nat, schema: string, name: string)

  function TableRow(t: TableRecord): Row { [Int8(t.id), Text(t.schema), Text(t.name)] }

  function ReadTable(row: Row): Option<TableRecord> {
    match (ObjectId(row, 0), Name(row, 1), Name(row, 2))
    case (Some(id), Some(schema), Some(name)) => Some(TableRecord(id, schema, name))
    case _ => None
  }

  datatype ColumnRecord = ColumnRecord(table: nat, position: nat, def: ColumnDef)

  // Nothing is written if the default does not fit the column or the position is too large.
  function ColumnRow(host: Host, c: ColumnRecord): Option<Row> {
    if c.position > MAX_ORDINAL then None
    else
      var cells := [Int8(c.table), Int4(c.position), Text(c.def.name), Text(TypeName(c.def.dataType)),
        Boolean(c.def.nullable)];
      match c.def.default_
      case None => Some(cells + [Null])
      case Some(d) =>
        match EncodeDefault(host, d, c.def.dataType)
        case None => None
        case Some(s) => Some(cells + [Text(s)])
  }

  // A missing last value reads as no default: rows written before there were defaults are short.
  function ReadDefault(host: Host, row: Row, ty: DataType): Option<Option<ColumnDefault>> {
    if |row| <= 5 || row[5] == Null then Some(None)
    else if row[5].Text? then
      match DecodeDefault(host, row[5].s, ty) case None => None case Some(d) => Some(Some(d))
    else None
  }

  function ReadType(row: Row, i: nat): Option<DataType> {
    match Name(row, i) case None => None case Some(s) => TypeFromName(s)
  }

  function ReadColumn(host: Host, row: Row): Option<ColumnRecord> {
    match (ObjectId(row, 0), Ordinal(row, 1), Name(row, 2), ReadType(row, 3), Flag(row, 4))
    case (Some(table), Some(position), Some(name), Some(ty), Some(nullable)) =>
      (match ReadDefault(host, row, ty)
       case None => None
       case Some(d) => Some(ColumnRecord(table, position, ColumnDef(name, ty, nullable, d))))
    case _ => None
  }

  datatype IndexPart = IndexPart(name: string, table: nat, unique: bool, column: string)

  datatype IndexRecord = IndexRecord(id: nat, position: nat, part: IndexPart)

  function IndexRow(x: IndexRecord): Option<Row> {
    if x.position > MAX_ORDINAL then None
    else Some([Int8(x.id), Int8(x.part.table), Text(x.part.name), Int4(x.position), Text(x.part.column),
      Boolean(x.part.unique)])
  }

  function ReadIndex(row: Row): Option<IndexRecord> {
    match (ObjectId(row, 0), ObjectId(row, 1), Name(row, 2), Ordinal(row, 3), Name(row, 4), Flag(row, 5))
    case (Some(id), Some(table), Some(name), Some(position), Some(column), Some(unique)) =>
      Some(IndexRecord(id, position, IndexPart(name, table, unique, column)))
    case _ => None
  }

  lemma {:induction false} TableReadsBack(t: TableRecord)
    requires t.id < U32
    ensures ReadTable(TableRow(t)) == Some(t)
  {
  }

  lemma {:induction false} ColumnReadsBack(host: Host, c: ColumnRecord)
    requires FloatsReadBack(host) && c.table < U32 && ColumnRow(host, c).Some?
    requires c.def.default_.Some? && c.def.default_.value.Constant? ==> Representable(host, c.def.default_.value.value)
    ensures ReadColumn(host, ColumnRow(host, c).value) == Some(c)
  {
    if c.def.default_.Some? {
      DefaultReadsBack(host, c.def.default_.value, c.def.dataType);
    }
    assert TypeFromName(TypeName(c.def.dataType)) == Some(c.def.dataType);
  }

  lemma {:induction false} IndexReadsBack(x: IndexRecord)
    requires x.id < U32 && x.part.table < U32 && IndexRow(x).Some?
    ensures ReadIndex(IndexRow(x).value) == Some(x)
  {
  }
}
