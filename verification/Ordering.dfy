// Comparing two values.
module Ordering {
  import opened Wrappers
  import opened Values

  datatype Order = Less | Equal | Greater

  function Reversed(o: Order): Order {
    match o case Less => Greater case Equal => Equal case Greater => Less
  }

  function OfInts(a: int, b: int): Order { if a < b then Less else if a == b then Equal else Greater }

  function OfReals(a: real, b: real): Order { if a < b then Less else if a == b then Equal else Greater }

  function OfBools(a: bool, b: bool): Order { if a == b then Equal else if b then Less else Greater }

  function OfTexts(a: string, b: string): Order {
    if a == [] then (if b == [] then Equal else Less)
    else if b == [] then Greater
    else if a[0] != b[0] then OfInts(a[0] as int, b[0] as int)
    else OfTexts(a[1..], b[1..])
  }

  function AsReal(v: Value): Option<real> {
    match v
    case Int4(i) => Some(i as real)
    case Int8(i) => Some(i as real)
    case Float8(f) => Some(f)
    case _ => None
  }

  // The type of a value that is not null.
  function KnownType(v: Value): DataType {
    match TypeOf(v) case Some(ty) => ty case None => TextType
  }

  // Nothing if either side is null.
  function Compare(left: Value, right: Value): Result<Option<Order>, EvalError> {
    if left == Null || right == Null then Ok(None)
    else if left.Boolean? && right.Boolean? then Ok(Some(OfBools(left.b, right.b)))
    else if left.Text? && right.Text? then Ok(Some(OfTexts(left.s, right.s)))
    else if left.Json? && right.Json? then Ok(Some(OfTexts(left.s, right.s)))
    else if left.Uuid? && right.Uuid? then Ok(Some(OfInts(left.id, right.id)))
    else if left.Timestamp? && right.Timestamp? then Ok(Some(OfInts(left.us, right.us)))
    else if (left.Int4? || left.Int8?) && (right.Int4? || right.Int8?) then Ok(Some(OfInts(left.i, right.i)))
    else if AsReal(left).Some? && AsReal(right).Some? then Ok(Some(OfReals(AsReal(left).value, AsReal(right).value)))
    else Err(TypeMismatch(KnownType(left), KnownType(right)))
  }

  // --------------------------------------------------- it is a linear order

  lemma {:induction false} TextsFlip(a: string, b: string)
    ensures OfTexts(b, a) == Reversed(OfTexts(a, b))
    ensures OfTexts(a, b) == Equal <==> a == b
  {
    if a != [] && b != [] && a[0] == b[0] {
      TextsFlip(a[1..], b[1..]);
      assert a == [a[0]] + a[1..] && b == [b[0]] + b[1..];
    }
  }

  // Not greater, chained.
  ghost predicate Chains(ab: Order, bc: Order, ac: Order) {
    && (ab != Greater && bc != Greater ==> ac != Greater)
    && (ab == Less && bc != Greater ==> ac == Less)
    && (ab != Greater && bc == Less ==> ac == Less)
  }

  lemma {:induction false} TextsChain(a: string, b: string, c: string)
    ensures Chains(OfTexts(a, b), OfTexts(b, c), OfTexts(a, c))
  {
    if a != [] && b != [] && c != [] && a[0] == b[0] && b[0] == c[0] {
      TextsChain(a[1..], b[1..], c[1..]);
    }
  }

  // Two values that can be compared at all, and are not null.
  ghost predicate Comparable(a: Value, b: Value) { Compare(a, b).Ok? && Compare(a, b).value.Some? }

  ghost function Cmp(a: Value, b: Value): Order
    requires Comparable(a, b)
  {
    Compare(a, b).value.value
  }

  lemma {:induction false} NumbersCompare(a: Value, b: Value)
    requires AsReal(a).Some? && AsReal(b).Some?
    ensures Comparable(a, b) && Cmp(a, b) == OfReals(AsReal(a).value, AsReal(b).value)
  {
  }

  // Comparable values are both numbers or of one type.
  lemma {:induction false} SameKind(a: Value, b: Value)
    requires Comparable(a, b)
    ensures (AsReal(a).Some? && AsReal(b).Some?) || (AsReal(a).None? && AsReal(b).None? && TypeOf(a) == TypeOf(b))
  {
  }

  lemma {:induction false} CompareFlips(a: Value, b: Value)
    requires Comparable(a, b)
    ensures Comparable(b, a) && Cmp(b, a) == Reversed(Cmp(a, b))
  {
    SameKind(a, b);
    if AsReal(a).Some? {
      NumbersCompare(a, b);
      NumbersCompare(b, a);
    } else if a.Text? || a.Json? {
      TextsFlip(a.s, b.s);
    }
  }

  lemma {:induction false} CompareChains(a: Value, b: Value, c: Value)
    requires Comparable(a, b) && Comparable(b, c)
    ensures Comparable(a, c) && Chains(Cmp(a, b), Cmp(b, c), Cmp(a, c))
  {
    SameKind(a, b);
    SameKind(b, c);
    if AsReal(a).Some? {
      NumbersCompare(a, b);
      NumbersCompare(b, c);
      NumbersCompare(a, c);
    } else if a.Text? || a.Json? {
      TextsChain(a.s, b.s, c.s);
    }
  }

  lemma {:induction false} CompareSelf(a: Value)
    requires a != Null
    ensures Comparable(a, a) && Cmp(a, a) == Equal
  {
    if a.Text? || a.Json? {
      TextsFlip(a.s, a.s);
    }
  }

  // Two values of one type compare equal only when they are the same.
  lemma {:induction false} EqualIsSame(a: Value, b: Value)
    requires a != Null && TypeOf(a) == TypeOf(b)
    ensures Comparable(a, b) && (Cmp(a, b) == Equal <==> a == b)
  {
    if a.Text? || a.Json? {
      TextsFlip(a.s, b.s);
    }
  }
}
