// Expressions. A node is its operator and its operands in order, so that whatever treats all
// operators alike is written once.
module Exprs {
  import opened Wrappers
  import opened Values

  datatype BinaryOp = Eq | NotEq | Lt | LtEq | Gt | GtEq | And | Or | Plus | Minus | Multiply | Divide | Modulo | Concat

  predicate IsComparison(op: BinaryOp) { op in {Eq, NotEq, Lt, LtEq, Gt, GtEq} }

  predicate IsArithmetic(op: BinaryOp) { op in {Plus, Minus, Multiply, Divide, Modulo, Concat} }

  datatype ScalarFunc = Coalesce | Lower | Upper | Nocase | Substr | Hexed | Randomblob | Datetime | DateOf

  // `Case` is followed by its operand if it has one, a condition and a result per branch, and the
  // `ELSE` result if it has one. `In` stands for an uncorrelated subquery by the values it returned.
  datatype Op =
    | Binary(op: BinaryOp)
    | Not
    | IsNull
    | Like(negated: bool, caseless: bool)
    | Case(operand: bool, branches: nat, otherwise: bool)
    | Cast(ty: DataType)
    | Call(func: ScalarFunc)
    | In(values: seq<Value>, negated: bool)

  datatype Tree<V> = Var(v: V) | Literal(value: Value) | Node(op: Op, args: seq<Tree<V>>)

  datatype ColumnRef = ColumnRef(qualifier: Option<string>, name: string)

  // A column by name, or by its place in the row.
  datatype Name = Column(ref: ColumnRef) | Slot(position: nat)

  type Expr = Tree<Name>

  type Phys = Tree<nat>

  function Two<V>(op: BinaryOp, l: Tree<V>, r: Tree<V>): Tree<V> { Node(Binary(op), [l, r]) }

  function One<V>(op: Op, x: Tree<V>): Tree<V> { Node(op, [x]) }

  predicate IsBinary<V>(e: Tree<V>, op: BinaryOp) { e.Node? && e.op == Binary(op) && |e.args| == 2 }

  // Levels from the root to the deepest leaf.
  function Height<V>(e: Tree<V>): nat
    decreases e
  {
    match e
    case Var(_) => 1
    case Literal(_) => 1
    case Node(_, args) => 1 + HeightOf(args)
  }

  function HeightOf<V>(es: seq<Tree<V>>): nat
    decreases es
  {
    if es == [] then 0
    else
      var rest, last := HeightOf(es[..|es| - 1]), Height(es[|es| - 1]);
      if rest < last then last else rest
  }
}
