// Runtime values and their types.
module Values {
  import opened Wrappers

  datatype DataType = BooleanType | Int4Type | Int8Type | Float8Type | TextType | TimestampType | UuidType | JsonType

  // Floating point is modelled by real numbers: there is no rounding and no NaN.
  datatype Value =
    | Null
    | Boolean(b: bool)
    | Int4(i: int)
    | Int8(i: int)
    | Float8(f: real)
    | Text(s: string)
    | Timestamp(us: int)
    | Uuid(id: nat)
    | Json(s: string)

  type Row = seq<Value>

  function TypeOf(v: Value): Option<DataType> {
    match v
    case Null => None
    case Boolean(_) => Some(BooleanType)
    case Int4(_) => Some(Int4Type)
    case Int8(_) => Some(Int8Type)
    case Float8(_) => Some(Float8Type)
    case Text(_) => Some(TextType)
    case Timestamp(_) => Some(TimestampType)
    case Uuid(_) => Some(UuidType)
    case Json(_) => Some(JsonType)
  }

  // What stops an expression from having a value.
  datatype EvalError =
    | ColumnOutOfRange(position: nat)
    | TypeMismatch(expected: DataType, actual: DataType)
    | IntegerOutOfRange
    | DivisionByZero
    | CannotCast
    | NotADateTime
    | UnknownModifier
    | SubqueryNotRun
    | SumOverflow
    | Malformed

  type Outcome = Result<Value, EvalError>
}
