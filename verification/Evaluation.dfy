// Evaluating an expression over one row, with SQL's three-valued logic.
module Evaluation {
  import opened Wrappers
  import opened Values
  import opened Ordering
  import opened Exprs
  import opened Scalars
  import Like

  function AsBool(x: Outcome): Result<Option<bool>, EvalError> {
    match x
    case Err(e) => Err(e)
    case Ok(Null) => Ok(None)
    case Ok(Boolean(b)) => Ok(Some(b))
    case Ok(v) => Err(TypeMismatch(BooleanType, KnownType(v)))
  }

  function OfBool(x: Result<Option<bool>, EvalError>): Outcome {
    match x case Err(e) => Err(e) case Ok(None) => Ok(Null) case Ok(Some(b)) => Ok(Boolean(b))
  }

  // A false left side settles it, whatever the right side would do.
  function AndThen(l: Result<Option<bool>, EvalError>, r: Result<Option<bool>, EvalError>): Result<Option<bool>,
                   EvalError> {
    if l.Err? || l == Ok(Some(false)) then l
    else if r.Err? || r == Ok(Some(false)) then r
    else if l == Ok(Some(true)) && r == Ok(Some(true)) then l
    else Ok(None)
  }

  function OrElse(l: Result<Option<bool>, EvalError>, r: Result<Option<bool>, EvalError>): Result<Option<bool>,
                  EvalError> {
    if l.Err? || l == Ok(Some(true)) then l
    else if r.Err? || r == Ok(Some(true)) then r
    else if l == Ok(Some(false)) && r == Ok(Some(false)) then l
    else Ok(None)
  }

  predicate Accepts(op: BinaryOp, o: Order) {
    match op
    case Eq => o == Equal
    case NotEq => o != Equal
    case Lt => o == Less
    case LtEq => o != Greater
    case Gt => o == Greater
    case GtEq => o != Less
    case _ => false
  }

  function Comparison(op: BinaryOp, l: Value, r: Value): Outcome {
    match Compare(l, r)
    case Err(e) => Err(e)
    case Ok(None) => Ok(Null)
    case Ok(Some(o)) => Ok(Boolean(Accepts(op, o)))
  }

  // `matched` is the decision of the matching loop.
  function Likeness(rt: Runtime, subject: Value, pattern: Value, negated: bool, caseless: bool): Outcome {
    if subject == Null || pattern == Null then Ok(Null)
    else if subject.Text? && pattern.Text? then
      var matched := if caseless then Like.Matches(rt.lower(subject.s), rt.lower(pattern.s), 0, 0)
                     else Like.Matches(subject.s, pattern.s, 0, 0);
      Ok(Boolean(matched != negated))
    else Err(Mismatch(TextType, subject, pattern))
  }

  // All the values, or the first error.
  function Collected(xs: seq<Outcome>): Result<seq<Value>, EvalError> {
    if xs == [] then Ok([])
    else match Collected(xs[..|xs| - 1])
      case Err(e) => Err(e)
      case Ok(vs) => (match xs[|xs| - 1] case Err(e) => Err(e) case Ok(v) => Ok(vs + [v]))
  }

  lemma {:induction false} CollectedAll(xs: seq<Outcome>)
    requires Collected(xs).Ok?
    ensures |Collected(xs).value| == |xs| && forall i :: 0 <= i < |xs| ==> xs[i] == Ok(Collected(xs).value[i])
  {
    if xs != [] {
      CollectedAll(xs[..|xs| - 1]);
    }
  }

  predicate CaseShape(operand: bool, branches: nat, otherwise: bool, n: nat) {
    n == 2 * branches + (if operand then 1 else 0) + (if otherwise then 1 else 0)
  }

  // Whether a branch is taken.
  function Taken(operand: Option<Value>, cond: Outcome): Result<bool, EvalError> {
    match cond
    case Err(e) => Err(e)
    case Ok(v) =>
      match operand
      case None => Ok(v == Boolean(true))
      case Some(x) => (match Compare(x, v) case Err(e) => Err(e) case Ok(o) => Ok(o == Some(Equal)))
  }

  // Branches in order; what comes after the first that is taken does not matter.
  function Branches(operand: Option<Value>, xs: seq<Outcome>): Outcome {
    if xs == [] then Ok(Null)
    else if |xs| == 1 then xs[0]
    else match Taken(operand, xs[0])
      case Err(e) => Err(e)
      case Ok(taken) => if taken then xs[1] else Branches(operand, xs[2..])
  }

  // What an operator makes of the outcomes of its operands.
  function Apply(rt: Runtime, op: Op, xs: seq<Outcome>): Outcome {
    match op
    case Binary(b) =>
      if |xs| != 2 then Err(Malformed)
      else if b == And then OfBool(AndThen(AsBool(xs[0]), AsBool(xs[1])))
      else if b == Or then OfBool(OrElse(AsBool(xs[0]), AsBool(xs[1])))
      else if xs[0].Err? then xs[0]
      else if xs[1].Err? then xs[1]
      else if IsArithmetic(b) then Arithmetic(b, xs[0].value, xs[1].value)
      else Comparison(b, xs[0].value, xs[1].value)
    case Not =>
      if |xs| != 1 then Err(Malformed)
      else (match AsBool(xs[0]) case Err(e) => Err(e) case Ok(None) => Ok(Null) case Ok(Some(t)) => Ok(Boolean(!t)))
    case IsNull =>
      if |xs| != 1 then Err(Malformed)
      else (match xs[0] case Err(e) => Err(e) case Ok(v) => Ok(Boolean(v == Null)))
    case Like(negated, caseless) =>
      if |xs| != 2 then Err(Malformed)
      else if xs[0].Err? then xs[0]
      else if xs[1].Err? then xs[1]
      else Likeness(rt, xs[0].value, xs[1].value, negated, caseless)
    case Case(operand, branches, otherwise) =>
      if !CaseShape(operand, branches, otherwise, |xs|) then Err(Malformed)
      else if !operand then Branches(None, xs)
      else (match xs[0] case Err(e) => Err(e) case Ok(v) => Branches(Some(v), xs[1..]))
    case Cast(ty) =>
      if |xs| != 1 then Err(Malformed)
      else (match xs[0] case Err(e) => Err(e) case Ok(v) => CastTo(rt, v, ty))
    case Call(f) =>
      (match Collected(xs)
       case Err(e) => Err(e)
       case Ok(vs) => if ArityOk(f, |vs|) then CallFunc(rt, f, vs) else Err(Malformed))
    case In(_, _) => Err(SubqueryNotRun)
  }

  function Eval(rt: Runtime, e: Phys, row: Row): Outcome
    decreases e
  {
    match e
    case Var(i) => if i < |row| then Ok(row[i]) else Err(ColumnOutOfRange(i))
    case Literal(v) => Ok(v)
    case Node(op, args) => Apply(rt, op, EvalAll(rt, args, row))
  }

  function EvalAll(rt: Runtime, es: seq<Phys>, row: Row): (xs: seq<Outcome>)
    ensures |xs| == |es| && forall i :: 0 <= i < |es| ==> xs[i] == Eval(rt, es[i], row)
    decreases es
  {
    if es == [] then [] else EvalAll(rt, es[..|es| - 1], row) + [Eval(rt, es[|es| - 1], row)]
  }

  lemma {:induction false} EvalPair(rt: Runtime, op: Op, p: Phys, q: Phys, row: Row)
    ensures Eval(rt, Node(op, [p, q]), row) == Apply(rt, op, [Eval(rt, p, row), Eval(rt, q, row)])
  {
    assert EvalAll(rt, [p, q], row) == [Eval(rt, p, row), Eval(rt, q, row)];
  }

  lemma {:induction false} EvalOne(rt: Runtime, op: Op, p: Phys, row: Row)
    ensures Eval(rt, Node(op, [p]), row) == Apply(rt, op, [Eval(rt, p, row)])
  {
    assert EvalAll(rt, [p], row) == [Eval(rt, p, row)];
  }

  // NULL is not true, so it rejects the row.
  function Keeps(rt: Runtime, e: Phys, row: Row): Result<bool, EvalError> {
    match Eval(rt, e, row) case Err(x) => Err(x) case Ok(v) => Ok(v == Boolean(true))
  }
}
