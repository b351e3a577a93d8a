// Arithmetic, CAST and the scalar functions, on values.
module Scalars {
  import opened Wrappers
  import opened Values
  import opened Ordering
  import opened Exprs
  import opened Text
  import opened Numerals

  // What the engine takes from its surroundings.
  datatype Runtime = Runtime(lower: string -> string, upper: string -> string, hex: string -> string,
                             floatText: real -> string, parseFloat: string -> Option<real>, now: int,
                             parseDateTime: string -> Option<int>, shift: (int, string) -> Option<int>,
                             dateTimeText: int -> string, dateText: int -> string, blob: nat -> string,
                             parseUuid: string -> Option<nat>, parseTimestamp: string -> Option<int>)

  const MIN_I32: int := -0x8000_0000
  const MAX_I32: int := 0x7FFF_FFFF
  const MIN_I64: int := -0x8000_0000_0000_0000
  const MAX_I64: int := 0x7FFF_FFFF_FFFF_FFFF

  // ------------------------------------------------------------ arithmetic

  // Towards zero, as the machine divides.
  function Quotient(a: int, b: int): int
    requires b != 0
  {
    var q := (if a < 0 then -a else a) / (if b < 0 then -b else b);
    if (a < 0) == (b < 0) then q else -q
  }

  function Checked(n: int): Result<int, EvalError> {
    if MIN_I64 <= n <= MAX_I64 then Ok(n) else Err(IntegerOutOfRange)
  }

  function IntegerOp(op: BinaryOp, a: int, b: int): Result<int, EvalError> {
    match op
    case Plus => Checked(a + b)
    case Minus => Checked(a - b)
    case Multiply => Checked(a * b)
    case Divide => if b == 0 || Quotient(a, b) > MAX_I64 then Err(DivisionByZero) else Ok(Quotient(a, b))
    case Modulo => if b == 0 || Quotient(a, b) > MAX_I64 then Err(DivisionByZero) else Ok(a - b * Quotient(a, b))
    case _ => Err(Malformed)
  }

  function Truncated(x: real): int { if x >= 0.0 then x.Floor else -((-x).Floor) }

  function FloatOp(op: BinaryOp, a: real, b: real): Result<real, EvalError> {
    match op
    case Plus => Ok(a + b)
    case Minus => Ok(a - b)
    case Multiply => Ok(a * b)
    case Divide => if b == 0.0 then Err(DivisionByZero) else Ok(a / b)
    case Modulo => if b == 0.0 then Err(DivisionByZero) else Ok(a - b * (Truncated(a / b) as real))
    case _ => Err(Malformed)
  }

  function AsInt(v: Value): Option<int> {
    match v case Int4(i) => Some(i) case Int8(i) => Some(i) case _ => None
  }

  function Mismatch(expected: DataType, left: Value, right: Value): EvalError {
    TypeMismatch(expected, if KnownType(left) != expected then KnownType(left) else KnownType(right))
  }

  function Arithmetic(op: BinaryOp, left: Value, right: Value): Outcome {
    if left == Null || right == Null then Ok(Null)
    else if op == Concat then
      if left.Text? && right.Text? then Ok(Text(left.s + right.s)) else Err(Mismatch(TextType, left, right))
    else if left.Float8? || right.Float8? then
      match (AsReal(left), AsReal(right))
      case (Some(a), Some(b)) => (match FloatOp(op, a, b) case Ok(f) => Ok(Float8(f)) case Err(e) => Err(e))
      case _ => Err(Mismatch(Float8Type, left, right))
    else if left.Int4? && right.Int4? then
      match IntegerOp(op, left.i, right.i)
      case Ok(n) => if MIN_I32 <= n <= MAX_I32 then Ok(Int4(n)) else Err(IntegerOutOfRange)
      case Err(e) => Err(e)
    else
      match (AsInt(left), AsInt(right))
      case (Some(a), Some(b)) => (match IntegerOp(op, a, b) case Ok(n) => Ok(Int8(n)) case Err(e) => Err(e))
      case _ => Err(Mismatch(Float8Type, left, right))
  }

  // ------------------------------------------------------------------ CAST

  function Clamped(n: int): int { if n < MIN_I64 then MIN_I64 else if n > MAX_I64 then MAX_I64 else n }

  function ToInteger(v: Value): Option<int> {
    match v
    case Boolean(b) => Some(if b then 1 else 0)
    case Int4(i) => Some(i)
    case Int8(i) => Some(i)
    case Float8(f) => Some(Clamped(Truncated(f)))
    case Text(s) => ParseI64(Trim(s))
    case _ => None
  }

  function Render(rt: Runtime, v: Value): string {
    match v
    case Null => ""
    case Boolean(b) => if b then "true" else "false"
    case Int4(i) => Signed(i)
    case Int8(i) => Signed(i)
    case Float8(f) => rt.floatText(f)
    case Text(s) => s
    case Json(s) => s
    case Timestamp(us) => rt.dateTimeText(us)
    case Uuid(u) => Hex(u, 32)
  }

  function AsciiLower(s: string): string {
    if s == [] then []
    else AsciiLower(s[..|s| - 1]) + [var c := s[|s| - 1]; if 'A' <= c <= 'Z' then ((c as int) + 32) as char else c]
  }

  function WithoutDashes(s: string): string {
    if s == [] then []
    else WithoutDashes(s[..|s| - 1]) + (if s[|s| - 1] == '-' then [] else [s[|s| - 1]])
  }

  function ToBoolean(v: Value): Option<bool> {
    match v
    case Boolean(b) => Some(b)
    case Int4(i) => Some(i != 0)
    case Int8(i) => Some(i != 0)
    case Text(s) =>
      var t := AsciiLower(Trim(s));
      if t in ["t", "true", "y", "yes", "on", "1"] then Some(true)
      else if t in ["f", "false", "n", "no", "off", "0"] then Some(false)
      else None
    case _ => None
  }

  function ToFloat(rt: Runtime, v: Value): Option<real> {
    if v.Text? then rt.parseFloat(Trim(v.s)) else AsReal(v)
  }

  function CastTo(rt: Runtime, v: Value, ty: DataType): Outcome {
    if v == Null then Ok(Null)
    else match ty
      case TextType => Ok(Text(Render(rt, v)))
      case BooleanType => (match ToBoolean(v) case Some(b) => Ok(Boolean(b)) case None => Err(CannotCast))
      case Int4Type =>
        (match ToInteger(v)
         case Some(n) => if MIN_I32 <= n <= MAX_I32 then Ok(Int4(n)) else Err(IntegerOutOfRange)
         case None => Err(CannotCast))
      case Int8Type => (match ToInteger(v) case Some(n) => Ok(Int8(n)) case None => Err(CannotCast))
      case Float8Type => (match ToFloat(rt, v) case Some(f) => Ok(Float8(f)) case None => Err(CannotCast))
      case TimestampType =>
        (match v
         case Timestamp(us) => Ok(v)
         case Text(s) => (match rt.parseDateTime(s) case Some(us) => Ok(Timestamp(us)) case None => Err(CannotCast))
         case _ => Err(CannotCast))
      case JsonType => if v.Json? || v.Text? then Ok(Json(v.s)) else Err(CannotCast)
      case UuidType =>
        (match v
         case Uuid(u) => Ok(v)
         case Text(s) => (match ParseHex(WithoutDashes(s)) case Some(u) => Ok(Uuid(u)) case None => Err(CannotCast))
         case _ => Err(CannotCast))
  }

  // ------------------------------------------------------------- functions

  predicate ArityOk(f: ScalarFunc, n: nat) {
    match f
    case Coalesce => n >= 1
    case Datetime => n >= 1
    case DateOf => n >= 1
    case Substr => 2 <= n <= 3
    case _ => n == 1
  }

  function FirstNonNull(vs: seq<Value>): Value {
    if vs == [] then Null else if vs[0] != Null then vs[0] else FirstNonNull(vs[1..])
  }

  function MapText(v: Value, f: string -> string): Outcome {
    match v
    case Null => Ok(Null)
    case Text(s) => Ok(Text(f(s)))
    case Json(s) => Ok(Text(f(s)))
    case _ => Err(TypeMismatch(TextType, KnownType(v)))
  }

  function IntegerArg(v: Value): Result<Option<int>, EvalError> {
    match v
    case Null => Ok(None)
    case Int4(i) => Ok(Some(i))
    case Int8(i) => Ok(Some(i))
    case _ => Err(TypeMismatch(Int8Type, KnownType(v)))
  }

  function Least(a: int, b: int): int { if a < b then a else b }

  // Counting from one, and from the end for a negative start.
  function SubstrFrom(n: nat, start: int): (begin: nat)
    ensures begin <= n
  {
    if start == 0 then 0
    else if start > 0 then Least(start - 1, n)
    else if n >= -start then n + start
    else 0
  }

  function SubstrTo(n: nat, begin: nat, len: int): (end: nat)
    requires begin <= n
    ensures begin <= end <= n
  {
    if len <= 0 then begin else Least(begin + len, n)
  }

  function Substring(args: seq<Value>): Outcome
    requires 2 <= |args| <= 3
  {
    match args[0]
    case Null => Ok(Null)
    case Text(s) =>
      (match IntegerArg(args[1])
       case Err(e) => Err(e)
       case Ok(None) => Ok(Null)
       case Ok(Some(start)) =>
         var begin := SubstrFrom(|s|, start);
         if |args| == 2 then Ok(Text(s[begin..]))
         else match IntegerArg(args[2])
           case Err(e) => Err(e)
           case Ok(None) => Ok(Null)
           case Ok(Some(len)) => Ok(Text(s[begin..SubstrTo(|s|, begin, len)])))
    case _ => Err(TypeMismatch(TextType, KnownType(args[0])))
  }

  function Modified(rt: Runtime, us: int, modifiers: seq<Value>): Result<Option<int>, EvalError>
    decreases |modifiers|
  {
    if modifiers == [] then Ok(Some(us))
    else match modifiers[0]
      case Null => Ok(None)
      case Text(m) => (match rt.shift(us, m) case None => Err(UnknownModifier) case Some(next) => Modified(rt, next,
        modifiers[1..]))
      case _ => Err(TypeMismatch(TextType, KnownType(modifiers[0])))
  }

  function Moment(rt: Runtime, v: Value): Result<Option<int>, EvalError> {
    match v
    case Null => Ok(None)
    case Timestamp(us) => Ok(Some(us))
    case Text(s) =>
      if AsciiLower(s) == "now" then Ok(Some(rt.now))
      else (match rt.parseDateTime(s) case None => Err(NotADateTime) case Some(us) => Ok(Some(us)))
    case _ => Err(TypeMismatch(TextType, KnownType(v)))
  }

  function DateTimeOf(rt: Runtime, args: seq<Value>, withTime: bool): Outcome
    requires |args| >= 1
  {
    match Moment(rt, args[0])
    case Err(e) => Err(e)
    case Ok(None) => Ok(Null)
    case Ok(Some(us)) =>
      match Modified(rt, us, args[1..])
      case Err(e) => Err(e)
      case Ok(None) => Ok(Null)
      case Ok(Some(at)) => Ok(Text(if withTime then rt.dateTimeText(at) else rt.dateText(at)))
  }

  function Blob(rt: Runtime, v: Value): Outcome {
    match IntegerArg(v)
    case Err(e) => Err(e)
    case Ok(None) => Ok(Null)
    case Ok(Some(n)) => Ok(Text(rt.blob(if n < 0 then 0 else Least(n, 0x10_0000))))
  }

  function CallFunc(rt: Runtime, f: ScalarFunc, args: seq<Value>): Outcome
    requires ArityOk(f, |args|)
  {
    match f
    case Coalesce => Ok(FirstNonNull(args))
    case Lower => MapText(args[0], rt.lower)
    case Upper => MapText(args[0], rt.upper)
    case Nocase => if args[0].Text? then Ok(Text(rt.lower(args[0].s))) else Ok(args[0])
    case Substr => Substring(args)
    case Hexed => MapText(args[0], rt.hex)
    case Randomblob => Blob(rt, args[0])
    case Datetime => DateTimeOf(rt, args, true)
    case DateOf => DateTimeOf(rt, args, false)
  }
}
