// A check on the text of a predicate under which it never fails on rows of the declared types.
module PlainPredicates {
  import opened Wrappers
  import opened Values
  import opened Exprs
  import opened Scalars
  import opened Evaluation
  import opened Scopes
  import opened Conjuncts

  predicate ColumnOf(e: Expr, scope: Scope, types: set<DataType>) {
    IsColumn(e) && Resolve(scope, e.v.ref).Ok? && scope[Resolve(scope, e.v.ref).value].ty in types
  }

  const ANY_TYPE: set<DataType> := {BooleanType, Int4Type, Int8Type, Float8Type, TextType, TimestampType, UuidType,
    JsonType}

  // A literal that is null or can be read as the type.
  predicate FitsColumn(rt: Runtime, e: Expr, column: Expr, scope: Scope) {
    && ColumnOf(column, scope, ANY_TYPE) && e.Literal?
    && var ty := scope[Resolve(scope, column.v.ref).value].ty;
       var c := Coerce(rt, e.value, ty);
       c.Ok? && (c.value == Null || TypeOf(c.value) == Some(ty))
  }

  // A boolean column; a column against a literal of its type; a text column LIKE a pattern;
  // IS NULL of a column; and what AND, OR and NOT make of these.
  predicate Plain(rt: Runtime, e: Expr, scope: Scope)
    decreases e
  {
    match e
    case Var(_) => ColumnOf(e, scope, {BooleanType})
    case Literal(v) => v == Null || v.Boolean?
    case Node(Binary(op), args) =>
      && |args| == 2
      && if op == And || op == Or then Plain(rt, args[0], scope) && Plain(rt, args[1], scope)
         else IsComparison(op) && (FitsColumn(rt, args[1], args[0], scope) || FitsColumn(rt, args[0], args[1], scope))
    case Node(Not, args) => |args| == 1 && Plain(rt, args[0], scope)
    case Node(IsNull, args) => |args| == 1 && ColumnOf(args[0], scope, ANY_TYPE)
    case Node(Like(_, _), args) =>
      |args| == 2 && ColumnOf(args[0], scope, {TextType}) && args[1].Literal?
        && (args[1].value == Null || args[1].value.Text?)
    case _ => false
  }

  // ------------------------------------------------------------------ columns

  lemma {:induction false} ColumnReads(rt: Runtime, e: Expr, scope: Scope, types: set<DataType>, row: Row)
    requires ColumnOf(e, scope, types) && TypedRow(row, scope)
    ensures Bind(rt, e, scope) == Ok(Var(Resolve(scope, e.v.ref).value))
    ensures var i := Resolve(scope, e.v.ref).value;
            Eval(rt, Var(i), row) == Ok(row[i]) && (row[i] == Null || TypeOf(row[i]) == Some(scope[i].ty))
  {
  }

  lemma {:induction false} SameTypeCompares(op: BinaryOp, a: Value, b: Value, ty: DataType)
    requires (a == Null || TypeOf(a) == Some(ty)) && (b == Null || TypeOf(b) == Some(ty))
    ensures Truthy(Comparison(op, a, b))
  {
  }

  lemma {:induction false} PairBinds(rt: Runtime, op: Op, args: seq<Expr>, scope: Scope)
    requires |args| == 2 && Bind(rt, args[0], scope).Ok? && Bind(rt, args[1], scope).Ok? && !op.In?
             && (Compares(op) ==> AlignedWith(args).None?)
    ensures Bind(rt, Node(op, args), scope) ==
            Ok(Node(op, [Bind(rt, args[0], scope).value, Bind(rt, args[1], scope).value]))
  {
    assert BindAll(rt, args, scope).value == [Bind(rt, args[0], scope).value, Bind(rt, args[1], scope).value];
  }

  lemma {:induction false} OneBinds(rt: Runtime, op: Op, args: seq<Expr>, scope: Scope)
    requires |args| == 1 && Bind(rt, args[0], scope).Ok? && !op.In?
    ensures Bind(rt, Node(op, args), scope) == Ok(Node(op, [Bind(rt, args[0], scope).value]))
  {
    assert BindAll(rt, args, scope).value == [Bind(rt, args[0], scope).value];
  }

  // -------------------------------------------------------------- comparisons

  lemma {:induction false} ComparisonBinds(rt: Runtime, op: BinaryOp, args: seq<Expr>, scope: Scope)
    returns (i: nat, c: Value, flipped: bool)
    requires IsComparison(op) && |args| == 2
             && (FitsColumn(rt, args[1], args[0], scope) || FitsColumn(rt, args[0], args[1], scope))
    ensures i < |scope| && (c == Null || TypeOf(c) == Some(scope[i].ty))
    ensures Bind(rt, Node(Binary(op), args), scope) ==
            Ok(Node(Binary(op), if flipped then [Literal(c), Var(i)] else [Var(i), Literal(c)]))
  {
    flipped := args[0].Literal?;
    var column, lit := if flipped then args[1] else args[0], if flipped then args[0] else args[1];
    i := Resolve(scope, column.v.ref).value;
    c := Coerce(rt, lit.value, scope[i].ty).value;
    var ps := if flipped then [Literal(lit.value), Var(i)] else [Var(i), Literal(lit.value)];
    assert BindAll(rt, args, scope).value == ps;
    assert Aligned(rt, ps, scope[i].ty) == Ok(if flipped then [Literal(c), Var(i)] else [Var(i), Literal(c)]);
  }

  lemma {:induction false} ComparisonSafe(rt: Runtime, op: BinaryOp, args: seq<Expr>, scope: Scope)
    requires IsComparison(op) && |args| == 2
             && (FitsColumn(rt, args[1], args[0], scope) || FitsColumn(rt, args[0], args[1], scope))
    ensures Safe(rt, Node(Binary(op), args), scope)
  {
    var i, c, flipped := ComparisonBinds(rt, op, args, scope);
    var l: Phys, r: Phys := if flipped then Literal(c) else Var(i), if flipped then Var(i) else Literal(c);
    forall row | TypedRow(row, scope) ensures Answers3(rt, Node(Binary(op), [l, r]), row) {
      EvalPair(rt, Binary(op), l, r, row);
      SameTypeCompares(op, row[i], c, scope[i].ty);
      SameTypeCompares(op, c, row[i], scope[i].ty);
    }
    assert Bind(rt, Node(Binary(op), args), scope).value == Node(Binary(op), [l, r]);
  }

  // ----------------------------------------------------------- the other forms

  lemma {:induction false} LikeSafe(rt: Runtime, op: Op, args: seq<Expr>, scope: Scope)
    requires op.Like? && Plain(rt, Node(op, args), scope)
    ensures Safe(rt, Node(op, args), scope)
  {
    PairBinds(rt, op, args, scope);
    var p := Bind(rt, args[0], scope).value;
    forall row | TypedRow(row, scope) ensures Answers3(rt, Node(op, [p, Literal(args[1].value)]), row) {
      ColumnReads(rt, args[0], scope, {TextType}, row);
      EvalPair(rt, op, p, Literal(args[1].value), row);
    }
  }

  lemma {:induction false} NullTestSafe(rt: Runtime, args: seq<Expr>, scope: Scope)
    requires Plain(rt, Node(IsNull, args), scope)
    ensures Safe(rt, Node(IsNull, args), scope)
  {
    OneBinds(rt, IsNull, args, scope);
    var p := Bind(rt, args[0], scope).value;
    forall row | TypedRow(row, scope) ensures Answers3(rt, Node(IsNull, [p]), row) {
      ColumnReads(rt, args[0], scope, ANY_TYPE, row);
      EvalOne(rt, IsNull, p, row);
    }
  }

  lemma {:induction false} NotSafe(rt: Runtime, args: seq<Expr>, scope: Scope)
    requires |args| == 1 && Safe(rt, args[0], scope)
    ensures Safe(rt, Node(Not, args), scope)
  {
    OneBinds(rt, Not, args, scope);
    var p := Bind(rt, args[0], scope).value;
    forall row | TypedRow(row, scope) ensures Answers3(rt, Node(Not, [p]), row) {
      assert Answers3(rt, p, row);
      EvalOne(rt, Not, p, row);
    }
  }

  lemma {:induction false} BooleanSafe(rt: Runtime, op: BinaryOp, args: seq<Expr>, scope: Scope)
    requires (op == And || op == Or) && |args| == 2 && Safe(rt, args[0], scope) && Safe(rt, args[1], scope)
    ensures Safe(rt, Node(Binary(op), args), scope)
  {
    PairBinds(rt, Binary(op), args, scope);
    var p, q := Bind(rt, args[0], scope).value, Bind(rt, args[1], scope).value;
    forall row | TypedRow(row, scope) ensures Answers3(rt, Node(Binary(op), [p, q]), row) {
      assert Answers3(rt, p, row) && Answers3(rt, q, row);
      EvalPair(rt, Binary(op), p, q, row);
    }
  }

  lemma {:induction false} ColumnSafe(rt: Runtime, e: Expr, scope: Scope)
    requires ColumnOf(e, scope, {BooleanType})
    ensures Safe(rt, e, scope)
  {
    var p := Bind(rt, e, scope).value;
    forall row | TypedRow(row, scope) ensures Answers3(rt, p, row) {
      ColumnReads(rt, e, scope, {BooleanType}, row);
    }
  }

  // What passes the check is true, false or unknown on every row of the declared types.
  lemma {:induction false} PlainIsSafe(rt: Runtime, e: Expr, scope: Scope)
    requires Plain(rt, e, scope)
    ensures Safe(rt, e, scope)
    decreases e
  {
    match e
    case Var(_) => ColumnSafe(rt, e, scope);
    case Literal(_) =>
    case Node(Binary(op), args) =>
      if op == And || op == Or {
        PlainIsSafe(rt, args[0], scope);
        PlainIsSafe(rt, args[1], scope);
        BooleanSafe(rt, op, args, scope);
      } else {
        ComparisonSafe(rt, op, args, scope);
      }
    case Node(Not, args) =>
      PlainIsSafe(rt, args[0], scope);
      NotSafe(rt, args, scope);
    case Node(IsNull, args) => NullTestSafe(rt, args, scope);
    case Node(Like(_, _), args) => LikeSafe(rt, e.op, args, scope);
  }
}
