// The names an expression may use, and binding them to places in the row.
module Scopes {
  import opened Wrappers
  import opened Values
  import opened Exprs
  import opened Scalars
  import opened Balanced

  datatype ScopeColumn = ScopeColumn(qualifiers: seq<string>, name: string, ty: DataType, nullable: bool)

  type Scope = seq<ScopeColumn>

  datatype PlanError = ColumnNotFound | Ambiguous | NoSuchPosition | NotDefined | BadLiteral | BadShape

  predicate Answers(c: ScopeColumn, ref: ColumnRef) {
    c.name == ref.name && (ref.qualifier.None? || ref.qualifier.value in c.qualifiers)
  }

  // The places a reference could mean.
  function Candidates(scope: Scope, ref: ColumnRef): (ps: seq<nat>)
    ensures forall i :: 0 <= i < |ps| ==> ps[i] < |scope| && Answers(scope[ps[i]], ref)
  {
    if scope == [] then []
    else
      var n := |scope| - 1;
      Candidates(scope[..n], ref) + (if Answers(scope[n], ref) then [n] else [])
  }

  predicate CanResolve(scope: Scope, ref: ColumnRef) { |Candidates(scope, ref)| == 1 }

  function Resolve(scope: Scope, ref: ColumnRef): (r: Result<nat, PlanError>)
    ensures r.Ok? <==> CanResolve(scope, ref)
    ensures r.Ok? ==> r.value < |scope| && Answers(scope[r.value], ref)
  {
    var ps := Candidates(scope, ref);
    if |ps| == 1 then Ok(ps[0]) else if ps == [] then Err(ColumnNotFound) else Err(Ambiguous)
  }

  function Nullable(scope: Scope): (s: Scope)
    ensures |s| == |scope| && forall i :: 0 <= i < |s| ==> s[i] == scope[i].(nullable := true)
  {
    seq(|scope|, i requires 0 <= i < |scope| => scope[i].(nullable := true))
  }

  // Types as declared, nulls anywhere.
  ghost predicate TypedRow(row: Row, scope: Scope) {
    |row| == |scope| && forall i :: 0 <= i < |row| ==> row[i] == Null || TypeOf(row[i]) == Some(scope[i].ty)
  }

  // ------------------------------------------------------------- literals

  // A literal compared with a column takes the column's type.
  function Coerce(rt: Runtime, v: Value, target: DataType): Result<Value, PlanError> {
    if v.Text? && target.UuidType? then
      match rt.parseUuid(v.s) case Some(u) => Ok(Uuid(u)) case None => Err(BadLiteral)
    else if v.Text? && target.TimestampType? then
      match rt.parseTimestamp(v.s) case Some(us) => Ok(Timestamp(us)) case None => Err(BadLiteral)
    else if v.Text? && target.JsonType? then Ok(Json(v.s))
    else if v.Int4? && target.Int8Type? then Ok(Int8(v.i))
    else if (v.Int4? || v.Int8?) && target.Float8Type? then Ok(Float8(v.i as real))
    else Ok(v)
  }

  function CoerceLiteral(rt: Runtime, p: Phys, target: DataType): Result<Phys, PlanError> {
    if p.Literal? then (match Coerce(rt, p.value, target) case Ok(v) => Ok(Literal(v)) case Err(e) => Err(e)) else Ok(p)
  }

  predicate IsColumn(e: Expr) { e.Var? && e.v.Column? }

  // The column whose type the other side of a comparison takes.
  function AlignedWith(args: seq<Expr>): Option<ColumnRef> {
    if |args| != 2 then None
    else if IsColumn(args[0]) && args[1].Literal? then Some(args[0].v.ref)
    else if args[0].Literal? && IsColumn(args[1]) then Some(args[1].v.ref)
    else None
  }

  function Aligned(rt: Runtime, ps: seq<Phys>, target: DataType): Result<seq<Phys>, PlanError>
    requires |ps| == 2
  {
    match (CoerceLiteral(rt, ps[0], target), CoerceLiteral(rt, ps[1], target))
    case (Ok(l), Ok(r)) => Ok([l, r])
    case (Err(e), _) => Err(e)
    case (_, Err(e)) => Err(e)
  }

  // -------------------------------------------------------------- binding

  predicate Compares(op: Op) { op.Binary? && IsComparison(op.op) }

  function BindNode(rt: Runtime, op: Op, args: seq<Expr>, ps: seq<Phys>, scope: Scope): Result<Phys, PlanError>
    requires |ps| == |args|
  {
    if op.In? then (if |ps| == 1 then Ok(ValueTest(ps[0], op.values, op.negated)) else Err(BadShape))
    else if Compares(op) && AlignedWith(args).Some? then
      match Resolve(scope, AlignedWith(args).value)
      case Err(e) => Err(e)
      case Ok(i) => (match Aligned(rt, ps, scope[i].ty) case Err(e) => Err(e) case Ok(qs) => Ok(Node(op, qs)))
    else Ok(Node(op, ps))
  }

  function Bind(rt: Runtime, e: Expr, scope: Scope): Result<Phys, PlanError>
    decreases e
  {
    match e
    case Var(Column(ref)) => (match Resolve(scope, ref) case Ok(i) => Ok(Var(i)) case Err(x) => Err(x))
    case Var(Slot(i)) => if i < |scope| then Ok(Var(i)) else Err(NoSuchPosition)
    case Literal(v) => Ok(Literal(v))
    case Node(op, args) =>
      (match BindAll(rt, args, scope)
       case Err(x) => Err(x)
       case Ok(ps) => BindNode(rt, op, args, ps, scope))
  }

  function BindAll(rt: Runtime, es: seq<Expr>, scope: Scope): (r: Result<seq<Phys>, PlanError>)
    ensures r.Ok? <==> forall i :: 0 <= i < |es| ==> Bind(rt, es[i], scope).Ok?
    ensures r.Ok? ==> |r.value| == |es| && forall i :: 0 <= i < |es| ==> Bind(rt, es[i], scope) == Ok(r.value[i])
    decreases es
  {
    if es == [] then Ok([])
    else match BindAll(rt, es[..|es| - 1], scope)
      case Err(x) => Err(x)
      case Ok(ps) => (match Bind(rt, es[|es| - 1], scope) case Err(x) => Err(x) case Ok(p) => Ok(ps + [p]))
  }

  // Every column name mentioned.
  function References(e: Expr): (refs: seq<ColumnRef>)
    decreases e
  {
    match e
    case Var(Column(ref)) => [ref]
    case Var(Slot(_)) => []
    case Literal(_) => []
    case Node(_, args) => ReferencesOf(args)
  }

  function ReferencesOf(es: seq<Expr>): (refs: seq<ColumnRef>)
    decreases es
  {
    if es == [] then [] else ReferencesOf(es[..|es| - 1]) + References(es[|es| - 1])
  }

  lemma {:induction false} ReferencedBelow(es: seq<Expr>, i: nat)
    requires i < |es|
    ensures forall ref :: ref in References(es[i]) ==> ref in ReferencesOf(es)
  {
    var n := |es| - 1;
    if i < n {
      ReferencedBelow(es[..n], i);
    }
  }
}
