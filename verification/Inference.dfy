// The type and nullability of an expression, and that evaluation respects them.
module Inference {
  import opened Wrappers
  import opened Values
  import opened Ordering
  import opened Exprs
  import opened Scalars
  import opened Evaluation
  import opened Balanced
  import opened Scopes

  datatype Typed = Typed(ty: DataType, nullable: bool)

  // ------------------------------------------------------------- inference

  function NumericRank(ty: DataType): Option<nat> {
    match ty case Int4Type => Some(0) case Int8Type => Some(1) case Float8Type => Some(2) case _ => None
  }

  function NumericResult(l: DataType, r: DataType): Result<DataType, PlanError> {
    match (NumericRank(l), NumericRank(r))
    case (Some(a), Some(b)) => Ok(if a >= b then l else r)
    case _ => Err(NotDefined)
  }

  function ResultType(f: ScalarFunc, first: DataType): DataType {
    if f == Coalesce || f == Nocase then first else TextType
  }

  function AnyNullable(ts: seq<Typed>): bool { exists i :: 0 <= i < |ts| && ts[i].nullable }

  function AllNullable(ts: seq<Typed>): bool { forall i :: 0 <= i < |ts| ==> ts[i].nullable }

  function FirstType(ts: seq<Typed>): DataType { if ts == [] then TextType else ts[0].ty }

  function CallType(f: ScalarFunc, ts: seq<Typed>): Typed {
    Typed(ResultType(f, FirstType(ts)), if f == Coalesce then AllNullable(ts) else AnyNullable(ts))
  }

  function CaseBase(operand: bool): nat { if operand then 1 else 0 }

  // Branch results decide the type; without an ELSE nothing may match, and that is null.
  function CaseType(ts: seq<Typed>, otherwise: Option<Typed>): Typed {
    Typed(FirstType(ts), !(otherwise.Some? && !otherwise.value.nullable) || AnyNullable(ts))
  }

  function Infer(e: Expr, scope: Scope): Result<Typed, PlanError>
    decreases e, 0
  {
    match e
    case Var(Column(ref)) =>
      (match Resolve(scope, ref) case Ok(i) => Ok(Typed(scope[i].ty, scope[i].nullable)) case Err(x) => Err(x))
    case Var(Slot(i)) => if i < |scope| then Ok(Typed(scope[i].ty, scope[i].nullable)) else Err(NoSuchPosition)
    case Literal(v) => Ok(Typed(KnownType(v), v == Null))
    case Node(op, args) =>
      match op
      case Not => Ok(Typed(BooleanType, true))
      case IsNull => Ok(Typed(BooleanType, true))
      case Like(_, _) => Ok(Typed(BooleanType, true))
      case In(_, _) => Ok(Typed(BooleanType, true))
      case Cast(ty) => Ok(Typed(ty, true))
      case Call(f) => (match InferAll(args, scope) case Err(x) => Err(x) case Ok(ts) => Ok(CallType(f, ts)))
      case Case(operand, branches, otherwise) =>
        if !CaseShape(operand, branches, otherwise, |args|) then Err(BadShape)
        else
          (match InferThens(e, 0, scope)
           case Err(x) => Err(x)
           case Ok(ts) =>
             if otherwise then
               (match Infer(args[|args| - 1], scope) case Err(x) => Err(x) case Ok(t) => Ok(CaseType(ts, Some(t))))
             else Ok(CaseType(ts, None)))
      case Binary(b) =>
        if |args| != 2 then Err(BadShape)
        else if IsArithmetic(b) then
          (match (Infer(args[0], scope), Infer(args[1], scope))
           case (Ok(l), Ok(r)) =>
             if b == Concat then Ok(Typed(TextType, l.nullable || r.nullable))
             else
               (match NumericResult(l.ty, r.ty)
                case Err(x) => Err(x)
                case Ok(ty) => Ok(Typed(ty, l.nullable || r.nullable)))
           case (Err(x), _) => Err(x)
           case (_, Err(x)) => Err(x))
        else Ok(Typed(BooleanType, true))
  }

  function InferAll(es: seq<Expr>, scope: Scope): (r: Result<seq<Typed>, PlanError>)
    ensures r.Ok? ==> |r.value| == |es| && forall i :: 0 <= i < |es| ==> Infer(es[i], scope) == Ok(r.value[i])
    decreases es, 0
  {
    if es == [] then Ok([])
    else match InferAll(es[..|es| - 1], scope)
      case Err(x) => Err(x)
      case Ok(ts) => (match Infer(es[|es| - 1], scope) case Err(x) => Err(x) case Ok(t) => Ok(ts + [t]))
  }

  // From the k-th branch on.
  function InferThens(e: Expr, k: nat, scope: Scope): (r: Result<seq<Typed>, PlanError>)
    requires e.Node? && e.op.Case? && CaseShape(e.op.operand, e.op.branches, e.op.otherwise, |e.args|)
             && k <= e.op.branches
    ensures r.Ok? ==> |r.value| == e.op.branches - k
    ensures r.Ok? ==> forall i :: 0 <= i < |r.value| ==>
            Infer(e.args[CaseBase(e.op.operand) + 2 * (k + i) + 1], scope) == Ok(r.value[i])
    decreases e, 0, e.op.branches - k
  {
    if k == e.op.branches then Ok([])
    else match Infer(e.args[CaseBase(e.op.operand) + 2 * k + 1], scope)
      case Err(x) => Err(x)
      case Ok(t) => (match InferThens(e, k + 1, scope) case Err(x) => Err(x) case Ok(ts) => Ok([t] + ts))
  }

  // -------------------------------------------------------------- soundness

  ghost predicate Fits(v: Value, t: Typed) { if v == Null then t.nullable else TypeOf(v) == Some(t.ty) }

  ghost predicate Conforms(row: Row, scope: Scope) {
    |row| == |scope| && forall i :: 0 <= i < |row| ==> Fits(row[i], Typed(scope[i].ty, scope[i].nullable))
  }

  // A result that can be used where the type is `ty`; NULL can be used anywhere.
  ghost predicate OfType(e: Expr, scope: Scope, ty: DataType) {
    e == Literal(Null) || (Infer(e, scope).Ok? && Infer(e, scope).value.ty == ty)
  }

  // The results of a CASE, or the arguments of a coalesce, agree on one type.
  ghost predicate Agreeing(e: Expr, scope: Scope)
    requires e.Node? && Infer(e, scope).Ok?
  {
    var ty := Infer(e, scope).value.ty;
    && (e.op == Call(Coalesce) ==> forall i :: 0 <= i < |e.args| ==> OfType(e.args[i], scope, ty))
    && (e.op.Case? && e.op.otherwise ==> OfType(e.args[|e.args| - 1], scope, ty))
    && (e.op.Case? ==> forall k {:trigger ThenOfType(e, k, scope, ty)} :: 0 <= k < e.op.branches ==>
      ThenOfType(e, k, scope, ty))
  }

  // The result of the k-th branch.
  ghost predicate ThenOfType(e: Expr, k: nat, scope: Scope, ty: DataType)
    requires e.Node? && e.op.Case?
  {
    var at := CaseBase(e.op.operand) + 2 * k + 1;
    at < |e.args| ==> OfType(e.args[at], scope, ty)
  }

  ghost predicate Uniform(e: Expr, scope: Scope)
    decreases e
  {
    e.Node? ==> (Infer(e, scope).Ok? ==> Agreeing(e, scope)) && forall i :: 0 <= i < |e.args| ==>
      Uniform(e.args[i], scope)
  }

  lemma {:induction false} ArithmeticFits(op: BinaryOp, a: Value, b: Value, l: Typed, r: Typed)
    requires IsArithmetic(op) && op != Concat && Fits(a, l) && Fits(b, r) && NumericResult(l.ty, r.ty).Ok?
             && Arithmetic(op, a, b).Ok?
    ensures Fits(Arithmetic(op, a, b).value, Typed(NumericResult(l.ty, r.ty).value, l.nullable || r.nullable))
  {
  }

  lemma {:induction false} ConcatFits(a: Value, b: Value, l: Typed, r: Typed)
    requires Fits(a, l) && Fits(b, r) && Arithmetic(Concat, a, b).Ok?
    ensures Fits(Arithmetic(Concat, a, b).value, Typed(TextType, l.nullable || r.nullable))
  {
  }

  lemma {:induction false} CastFits(rt: Runtime, v: Value, ty: DataType)
    requires CastTo(rt, v, ty).Ok?
    ensures Fits(CastTo(rt, v, ty).value, Typed(ty, true))
  {
  }

  // Where the first value that is not null stands, or the end.
  function FirstAt(vs: seq<Value>): (i: nat)
    ensures i <= |vs| && (forall j :: 0 <= j < i ==> vs[j] == Null) && (i < |vs| ==> vs[i] != Null)
  {
    if vs == [] || vs[0] != Null then 0 else 1 + FirstAt(vs[1..])
  }

  lemma {:induction false} FirstNonNullAt(vs: seq<Value>)
    ensures FirstNonNull(vs) == if FirstAt(vs) < |vs| then vs[FirstAt(vs)] else Null
  {
    if vs != [] && vs[0] == Null {
      FirstNonNullAt(vs[1..]);
    }
  }

  lemma {:induction false} ANullModifier(rt: Runtime, us: int, modifiers: seq<Value>) returns (i: nat)
    requires Modified(rt, us, modifiers) == Ok(None)
    ensures i < |modifiers| && modifiers[i] == Null
    decreases |modifiers|
  {
    if modifiers[0] == Null {
      i := 0;
    } else {
      i := ANullModifier(rt, rt.shift(us, modifiers[0].s).value, modifiers[1..]);
      i := i + 1;
    }
  }

  ghost predicate AllFit(vs: seq<Value>, ts: seq<Typed>) {
    |vs| == |ts| && forall i :: 0 <= i < |vs| ==> Fits(vs[i], ts[i])
  }

  // A coalesce fits its inferred type exactly when the argument it returns has the first one's type.
  lemma {:induction false} CoalesceExact(vs: seq<Value>, ts: seq<Typed>)
    requires AllFit(vs, ts)
    ensures Fits(FirstNonNull(vs), CallType(Coalesce, ts)) <==>
            (FirstAt(vs) < |vs| ==> ts[FirstAt(vs)].ty == FirstType(ts))
  {
    FirstNonNullAt(vs);
    if FirstAt(vs) == |vs| {
      forall i | 0 <= i < |ts| ensures ts[i].nullable {
        assert Fits(vs[i], ts[i]);
      }
    } else {
      assert Fits(vs[FirstAt(vs)], ts[FirstAt(vs)]);
    }
  }

  lemma {:induction false} NullArgument(vs: seq<Value>, ts: seq<Typed>, i: nat)
    requires AllFit(vs, ts) && i < |vs| && vs[i] == Null
    ensures AnyNullable(ts)
  {
    assert Fits(vs[i], ts[i]);
  }

  lemma {:induction false} SubstringFits(vs: seq<Value>, ts: seq<Typed>)
    requires AllFit(vs, ts) && 2 <= |vs| <= 3 && Substring(vs).Ok?
    ensures Fits(Substring(vs).value, Typed(TextType, AnyNullable(ts)))
  {
    forall i: nat | i < |vs| && vs[i] == Null ensures AnyNullable(ts) {
      NullArgument(vs, ts, i);
    }
  }

  lemma {:induction false} DateTimeFits(rt: Runtime, vs: seq<Value>, ts: seq<Typed>, withTime: bool)
    requires AllFit(vs, ts) && |vs| >= 1 && DateTimeOf(rt, vs, withTime).Ok?
    ensures Fits(DateTimeOf(rt, vs, withTime).value, Typed(TextType, AnyNullable(ts)))
  {
    if Moment(rt, vs[0]) == Ok(None) {
      NullArgument(vs, ts, 0);
    } else if Modified(rt, Moment(rt, vs[0]).value.value, vs[1..]) == Ok(None) {
      var i := ANullModifier(rt, Moment(rt, vs[0]).value.value, vs[1..]);
      NullArgument(vs, ts, i + 1);
    }
  }

  lemma {:induction false} CallExact(rt: Runtime, f: ScalarFunc, vs: seq<Value>, ts: seq<Typed>)
    requires ArityOk(f, |vs|) && AllFit(vs, ts) && CallFunc(rt, f, vs).Ok?
    ensures Fits(CallFunc(rt, f, vs).value, CallType(f, ts)) <==>
            (f == Coalesce && FirstAt(vs) < |vs| ==> ts[FirstAt(vs)].ty == FirstType(ts))
  {
    assert Fits(vs[0], ts[0]);
    if vs[0] == Null {
      NullArgument(vs, ts, 0);
    }
    match f
    case Coalesce => CoalesceExact(vs, ts);
    case Substr => SubstringFits(vs, ts);
    case Datetime => DateTimeFits(rt, vs, ts, true);
    case DateOf => DateTimeFits(rt, vs, ts, false);
    case _ =>
  }

  // Where the result of a CASE stands among conditions and results, or the end.
  function BranchAt(operand: Option<Value>, xs: seq<Outcome>): (i: nat)
    ensures i <= |xs| && (i == |xs| ==> i % 2 == 0)
    ensures i < |xs| && i % 2 == 0 ==> i == |xs| - 1
  {
    if |xs| < 2 then 0 else if Taken(operand, xs[0]) == Ok(true) then 1 else 2 + BranchAt(operand, xs[2..])
  }

  lemma {:induction false} BranchTaken(operand: Option<Value>, xs: seq<Outcome>)
    requires Branches(operand, xs).Ok?
    ensures Branches(operand, xs) == if BranchAt(operand, xs) < |xs| then xs[BranchAt(operand, xs)] else Ok(Null)
  {
    if |xs| >= 2 && !Taken(operand, xs[0]).value {
      BranchTaken(operand, xs[2..]);
    }
  }

  // AND, OR, NOT, comparisons, LIKE and IS NULL never give anything but a truth value.
  lemma {:induction false} TruthFits(rt: Runtime, op: Op, xs: seq<Outcome>)
    requires Apply(rt, op, xs).Ok? && (op.Not? || op.IsNull? || op.Like? || (op.Binary? && !IsArithmetic(op.op)))
    ensures Fits(Apply(rt, op, xs).value, Typed(BooleanType, true))
  {
  }

  lemma {:induction false} MemberFits(rt: Runtime, row: Row, tested: Phys, values: seq<Value>, negated: bool)
    requires Eval(rt, ValueTest(tested, values, negated), row).Ok?
    ensures Fits(Eval(rt, ValueTest(tested, values, negated), row).value, Typed(BooleanType, true))
  {
    InMeans(rt, row, tested, values, negated);
  }

  // What is known of one operand: if it has a value, the value fits; and a NULL stays one.
  ghost predicate ArgSound(rt: Runtime, e: Expr, scope: Scope, row: Row, p: Phys) {
    && (Infer(e, scope).Ok? && Eval(rt, p, row).Ok? ==> Fits(Eval(rt, p, row).value, Infer(e, scope).value))
    && (e == Literal(Null) ==> p == Literal(Null))
  }

  ghost predicate ArgsSound(rt: Runtime, es: seq<Expr>, scope: Scope, row: Row, ps: seq<Phys>) {
    |ps| == |es| && forall i {:trigger ArgSound(rt, es[i], scope, row, ps[i])} :: 0 <= i < |es| ==>
      ArgSound(rt, es[i], scope, row, ps[i])
  }

  lemma {:induction false} ArithmeticSound(rt: Runtime, e: Expr, scope: Scope, row: Row, ps: seq<Phys>)
    requires e.Node? && e.op.Binary? && IsArithmetic(e.op.op) && Infer(e, scope).Ok?
             && Eval(rt, Node(e.op, ps), row).Ok?
    requires ArgsSound(rt, e.args, scope, row, ps)
    ensures Fits(Eval(rt, Node(e.op, ps), row).value, Infer(e, scope).value)
  {
    var xs := EvalAll(rt, ps, row);
    assert ArgSound(rt, e.args[0], scope, row, ps[0]) && ArgSound(rt, e.args[1], scope, row, ps[1]);
    var l, r := Infer(e.args[0], scope).value, Infer(e.args[1], scope).value;
    if e.op.op == Concat {
      ConcatFits(xs[0].value, xs[1].value, l, r);
    } else {
      ArithmeticFits(e.op.op, xs[0].value, xs[1].value, l, r);
    }
  }

  // The operand a CASE or a coalesce gives back, or the end for none.
  function Picked(op: Op, xs: seq<Outcome>): nat {
    if op.Case? && op.operand then
      if xs != [] && xs[0].Ok? then 1 + BranchAt(Some(xs[0].value), xs[1..]) else |xs|
    else if op.Case? then BranchAt(None, xs)
    else if Collected(xs).Ok? then FirstAt(Collected(xs).value)
    else |xs|
  }

  predicate Picks(op: Op) { op.Case? || op == Call(Coalesce) }

  ghost predicate SameType(a: Expr, b: Expr, scope: Scope) {
    Infer(a, scope).Ok? && Infer(b, scope).Ok? && Infer(a, scope).value.ty == Infer(b, scope).value.ty
  }

  // What a CASE or coalesce gives back is null or from an operand of the type of the whole.
  ghost predicate PickFits(rt: Runtime, e: Expr, scope: Scope, row: Row, ps: seq<Phys>)
    requires e.Node? && |ps| == |e.args|
  {
    var at := Picked(e.op, EvalAll(rt, ps, row));
    Picks(e.op) && at < |ps| && Eval(rt, ps[at], row).Ok? && Eval(rt, ps[at], row).value != Null ==>
      SameType(e.args[at], e, scope)
  }

  lemma {:induction false} CallSound(rt: Runtime, e: Expr, scope: Scope, row: Row, ps: seq<Phys>)
    requires e.Node? && e.op.Call? && Infer(e, scope).Ok? && Eval(rt, Node(e.op, ps), row).Ok?
    requires ArgsSound(rt, e.args, scope, row, ps)
    ensures Fits(Eval(rt, Node(e.op, ps), row).value, Infer(e, scope).value) <==> PickFits(rt, e, scope, row, ps)
  {
    var xs := EvalAll(rt, ps, row);
    var ts := InferAll(e.args, scope).value;
    CollectedAll(xs);
    var vs := Collected(xs).value;
    forall i | 0 <= i < |vs| ensures Fits(vs[i], ts[i]) {
      assert ArgSound(rt, e.args[i], scope, row, ps[i]);
    }
    CallExact(rt, e.op.func, vs, ts);
    if e.op.func == Coalesce && FirstAt(vs) < |vs| {
      assert ArgSound(rt, e.args[FirstAt(vs)], scope, row, ps[FirstAt(vs)]);
    }
  }

  // What evaluating a CASE comes to, once its shape is right.
  lemma {:induction false} CaseResult(rt: Runtime, op: Op, ps: seq<Phys>, row: Row)
    requires op.Case? && Eval(rt, Node(op, ps), row).Ok?
    ensures var at := Picked(op, EvalAll(rt, ps, row));
            && at <= |ps| && (at == |ps| ==> !op.otherwise) && (at < |ps| ==> IsResult(op, |ps|, at))
            && Eval(rt, Node(op, ps), row) == if at < |ps| then Eval(rt, ps[at], row) else Ok(Null)
  {
    var xs := EvalAll(rt, ps, row);
    PickIsResult(op, xs);
    if op.operand {
      BranchTaken(Some(xs[0].value), xs[1..]);
    } else {
      BranchTaken(None, xs);
    }
  }

  lemma {:induction false} PickIsResult(op: Op, xs: seq<Outcome>)
    requires op.Case? && CaseShape(op.operand, op.branches, op.otherwise, |xs|) && (op.operand ==> xs[0].Ok?)
    ensures Picked(op, xs) <= |xs| && (Picked(op, xs) == |xs| ==> !op.otherwise)
    ensures Picked(op, xs) < |xs| ==> IsResult(op, |xs|, Picked(op, xs))
  {
  }

  // A result of a CASE with `n` operands: what follows a condition, or the ELSE.
  predicate IsResult(op: Op, n: nat, at: nat)
    requires op.Case?
  {
    at < n && ((op.otherwise && at == n - 1) || (CaseBase(op.operand) < at && (at - CaseBase(op.operand)) % 2 == 1))
  }

  lemma {:induction false} CaseTyped(e: Expr, scope: Scope, at: nat)
    requires e.Node? && e.op.Case? && Infer(e, scope).Ok?
    ensures !e.op.otherwise ==> Infer(e, scope).value.nullable
    ensures IsResult(e.op, |e.args|, at) ==>
            Infer(e.args[at], scope).Ok? && (Infer(e.args[at], scope).value.nullable ==> Infer(e, scope).value.nullable)
  {
    if IsResult(e.op, |e.args|, at) && !(e.op.otherwise && at == |e.args| - 1) {
      var ts := InferThens(e, 0, scope).value;
      var k := (at - CaseBase(e.op.operand)) / 2;
      assert at == CaseBase(e.op.operand) + 2 * (0 + k) + 1;
      assert Infer(e.args[CaseBase(e.op.operand) + 2 * (0 + k) + 1], scope) == Ok(ts[k]);
    }
  }

  lemma {:induction false} CaseSound(rt: Runtime, e: Expr, scope: Scope, row: Row, ps: seq<Phys>)
    requires e.Node? && e.op.Case? && Infer(e, scope).Ok? && Eval(rt, Node(e.op, ps), row).Ok?
    requires ArgsSound(rt, e.args, scope, row, ps)
    ensures Fits(Eval(rt, Node(e.op, ps), row).value, Infer(e, scope).value) <==> PickFits(rt, e, scope, row, ps)
  {
    var at := Picked(e.op, EvalAll(rt, ps, row));
    CaseResult(rt, e.op, ps, row);
    CaseTyped(e, scope, at);
    if at < |ps| {
      assert ArgSound(rt, e.args[at], scope, row, ps[at]);
    }
  }

  // Operands that fit make a node that fits, exactly when what it gives back has its type.
  lemma {:induction false} NodeExact(rt: Runtime, e: Expr, scope: Scope, row: Row, ps: seq<Phys>, p: Phys)
    requires e.Node? && Infer(e, scope).Ok? && ArgsSound(rt, e.args, scope, row, ps)
    requires BindNode(rt, e.op, e.args, ps, scope) == Ok(p) && Eval(rt, p, row).Ok?
    ensures Fits(Eval(rt, p, row).value, Infer(e, scope).value) <==> PickFits(rt, e, scope, row, ps)
  {
    match e.op
    case In(values, negated) => MemberFits(rt, row, ps[0], values, negated);
    case Call(_) => CallSound(rt, e, scope, row, ps);
    case Case(_, _, _) => CaseSound(rt, e, scope, row, ps);
    case Cast(ty) =>
      assert EvalAll(rt, ps, row)[0] == Eval(rt, ps[0], row);
      CastFits(rt, Eval(rt, ps[0], row).value, ty);
    case Binary(b) =>
      if IsArithmetic(b) {
        ArithmeticSound(rt, e, scope, row, ps);
      } else {
        TruthFits(rt, e.op, EvalAll(rt, p.args, row));
      }
    case _ => TruthFits(rt, e.op, EvalAll(rt, p.args, row));
  }

  // It has a type and, on this row, a value.
  ghost predicate Matters(rt: Runtime, e: Expr, scope: Scope, row: Row) {
    Infer(e, scope).Ok? && Bind(rt, e, scope).Ok? && Eval(rt, Bind(rt, e, scope).value, row).Ok?
  }

  // On this row, every CASE and coalesce that has a value is right about its type.
  ghost predicate Settled(rt: Runtime, e: Expr, scope: Scope, row: Row)
    decreases e
  {
    e.Node? ==>
      && (Matters(rt, e, scope, row) ==> PickFits(rt, e, scope, row, BindAll(rt, e.args, scope).value))
      && forall i :: 0 <= i < |e.args| ==> Settled(rt, e.args[i], scope, row)
  }

  // A settled expression that evaluates at all gives null only where it was inferred nullable, and
  // otherwise a value of the inferred type.
  lemma {:induction false} SettledSound(rt: Runtime, e: Expr, scope: Scope, row: Row, p: Phys)
    requires Conforms(row, scope) && Settled(rt, e, scope, row)
    requires Infer(e, scope).Ok? && Bind(rt, e, scope) == Ok(p) && Eval(rt, p, row).Ok?
    ensures Fits(Eval(rt, p, row).value, Infer(e, scope).value)
    decreases e
  {
    if e.Node? {
      var ps := BindAll(rt, e.args, scope).value;
      forall i | 0 <= i < |ps| ensures ArgSound(rt, e.args[i], scope, row, ps[i]) {
        OperandSound(rt, e, scope, row, ps, i);
      }
      NodeExact(rt, e, scope, row, ps, p);
    }
  }

  lemma {:induction false} OperandSound(rt: Runtime, e: Expr, scope: Scope, row: Row, ps: seq<Phys>, i: nat)
    requires e.Node? && BindAll(rt, e.args, scope) == Ok(ps) && i < |e.args|
    requires Conforms(row, scope) && Settled(rt, e.args[i], scope, row)
    ensures ArgSound(rt, e.args[i], scope, row, ps[i])
    decreases e, 0
  {
    if Infer(e.args[i], scope).Ok? && Eval(rt, ps[i], row).Ok? {
      SettledSound(rt, e.args[i], scope, row, ps[i]);
    }
  }

  // Exactly: with settled operands, an expression fits where what it gives back has its type.
  lemma {:induction false} InferenceExact(rt: Runtime, e: Expr, scope: Scope, row: Row, p: Phys, ps: seq<Phys>)
    requires Conforms(row, scope) && e.Node? && BindAll(rt, e.args, scope) == Ok(ps)
    requires forall i :: 0 <= i < |e.args| ==> Settled(rt, e.args[i], scope, row)
    requires Infer(e, scope).Ok? && Bind(rt, e, scope) == Ok(p) && Eval(rt, p, row).Ok?
    ensures Fits(Eval(rt, p, row).value, Infer(e, scope).value) <==> PickFits(rt, e, scope, row, ps)
  {
    forall i | 0 <= i < |ps| ensures ArgSound(rt, e.args[i], scope, row, ps[i]) {
      OperandSound(rt, e, scope, row, ps, i);
    }
    NodeExact(rt, e, scope, row, ps, p);
  }

  lemma {:induction false} ResultOfType(rt: Runtime, e: Expr, scope: Scope, row: Row, ps: seq<Phys>, at: nat)
    requires e.Node? && Picks(e.op) && Infer(e, scope).Ok? && Agreeing(e, scope) && Eval(rt, Node(e.op, ps), row).Ok?
    requires |ps| == |e.args| && at == Picked(e.op, EvalAll(rt, ps, row)) < |ps|
    ensures OfType(e.args[at], scope, Infer(e, scope).value.ty) && Infer(e.args[at], scope).Ok?
  {
    if e.op.Case? {
      CaseResult(rt, e.op, ps, row);
      CaseAgrees(e, scope, at);
    }
  }

  lemma {:induction false} CaseAgrees(e: Expr, scope: Scope, at: nat)
    requires e.Node? && e.op.Case? && Infer(e, scope).Ok? && Agreeing(e, scope) && IsResult(e.op, |e.args|, at)
    ensures OfType(e.args[at], scope, Infer(e, scope).value.ty) && Infer(e.args[at], scope).Ok?
  {
    CaseTyped(e, scope, at);
    if !(e.op.otherwise && at == |e.args| - 1) {
      var k := (at - CaseBase(e.op.operand)) / 2;
      assert at == CaseBase(e.op.operand) + 2 * k + 1;
      assert ThenOfType(e, k, scope, Infer(e, scope).value.ty);
    }
  }

  // Results and arguments that agree on a type settle the matter for every row.
  lemma {:induction false} UniformSettles(rt: Runtime, e: Expr, scope: Scope, row: Row)
    requires Uniform(e, scope)
    ensures Settled(rt, e, scope, row)
    decreases e
  {
    if e.Node? {
      forall i | 0 <= i < |e.args| ensures Settled(rt, e.args[i], scope, row) {
        UniformSettles(rt, e.args[i], scope, row);
      }
      if Matters(rt, e, scope, row) && Picks(e.op) {
        var ps := BindAll(rt, e.args, scope).value;
        var at := Picked(e.op, EvalAll(rt, ps, row));
        if at < |ps| {
          ResultOfType(rt, e, scope, row, ps, at);
          assert Bind(rt, e.args[at], scope) == Ok(ps[at]);
        }
      }
    }
  }

  // An expression whose results and arguments agree fits on every row.
  lemma {:induction false} InferenceSound(rt: Runtime, e: Expr, scope: Scope, row: Row, p: Phys)
    requires Conforms(row, scope) && Uniform(e, scope) && Infer(e, scope).Ok? && Bind(rt, e, scope) == Ok(p)
             && Eval(rt, p, row).Ok?
    ensures Fits(Eval(rt, p, row).value, Infer(e, scope).value)
  {
    UniformSettles(rt, e, scope, row);
    SettledSound(rt, e, scope, row, p);
  }

  const FALLBACK: Expr := Node(Call(Coalesce), [Literal(Null), Literal(Int4(1))])

  lemma {:induction false} FallbackTyped()
    ensures Infer(FALLBACK, []) == Ok(Typed(TextType, false))
  {
    InferTwo(Literal(Null), Literal(Int4(1)), []);
    var ts := [Typed(TextType, true), Typed(Int4Type, false)];
    assert !ts[1].nullable;
  }

  lemma {:induction false} InferTwo(a: Expr, b: Expr, scope: Scope)
    requires Infer(a, scope).Ok? && Infer(b, scope).Ok?
    ensures InferAll([a, b], scope) == Ok([Infer(a, scope).value, Infer(b, scope).value])
  {
    var t, u := Infer(a, scope).value, Infer(b, scope).value;
    InferMore([], a, scope);
    assert [] + [a] == [a] && [] + [t] == [t];
    InferMore([a], b, scope);
    assert [a] + [b] == [a, b] && [t] + [u] == [t, u];
  }

  lemma {:induction false} FallbackValue(rt: Runtime, ps: seq<Phys>)
    requires ps == [Literal(Null), Literal(Int4(1))]
    ensures Eval(rt, Node(Call(Coalesce), ps), []) == Ok(Int4(1))
  {
    var xs := EvalAll(rt, ps, []);
    CollectedMore([], Null);
    CollectedMore([Ok(Null)], Int4(1));
    assert xs == [] + [Ok(Null)] + [Ok(Int4(1))];
    FirstNonNullAt([Null, Int4(1)]);
  }

  // A null literal is taken for a text: coalesce(NULL, 1) is inferred to be one.
  lemma {:induction false} AMixedCoalesce(rt: Runtime)
    ensures Infer(FALLBACK, []) == Ok(Typed(TextType, false)) && Bind(rt, FALLBACK, []).Ok?
    ensures Eval(rt, Bind(rt, FALLBACK, []).value, []) == Ok(Int4(1))
  {
    FallbackTyped();
    var ps: seq<Phys> := [Literal(Null), Literal(Int4(1))];
    assert BindAll(rt, FALLBACK.args, []).value == ps;
    FallbackValue(rt, ps);
  }

  lemma {:induction false} InferMore(es: seq<Expr>, e: Expr, scope: Scope)
    requires InferAll(es, scope).Ok? && Infer(e, scope).Ok?
    ensures InferAll(es + [e], scope) == Ok(InferAll(es, scope).value + [Infer(e, scope).value])
  {
    assert (es + [e])[..|es|] == es;
  }

  lemma {:induction false} CollectedMore(xs: seq<Outcome>, v: Value)
    requires Collected(xs).Ok?
    ensures Collected(xs + [Ok(v)]) == Ok(Collected(xs).value + [v])
  {
    assert (xs + [Ok(v)])[..|xs|] == xs;
  }

  // Without agreement it fails: the type of this CASE is that of its first branch.
  lemma {:induction false} AMixedCase(rt: Runtime)
    ensures var e: Expr := Node(Case(false, 1, true), [Literal(Boolean(false)), Literal(Int4(1)), Literal(Text("x"))]);
            && Infer(e, []) == Ok(Typed(Int4Type, false)) && Bind(rt, e, []).Ok?
            && Eval(rt, Bind(rt, e, []).value, []) == Ok(Text("x"))
  {
    var args: seq<Expr> := [Literal(Boolean(false)), Literal(Int4(1)), Literal(Text("x"))];
    var e: Expr := Node(Case(false, 1, true), args);
    var ps: seq<Phys> := [Literal(Boolean(false)), Literal(Int4(1)), Literal(Text("x"))];
    var ts := InferThens(e, 0, []);
    assert InferThens(e, 1, []) == Ok([]);
    assert Infer(args[1], []) == Ok(Typed(Int4Type, false));
    assert [Typed(Int4Type, false)] + [] == [Typed(Int4Type, false)];
    assert ts == Ok([Typed(Int4Type, false)]);
    assert BindAll(rt, args, []).value == ps;
    var xs := EvalAll(rt, ps, []);
    assert xs == [Ok(Boolean(false)), Ok(Int4(1)), Ok(Text("x"))];
    assert Branches(None, xs[2..]) == xs[2];
  }
}
