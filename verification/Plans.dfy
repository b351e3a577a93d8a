// Logical plans, their lowering to physical ones, and what those put out.
module Plans {
  import opened Wrappers
  import opened Values
  import opened Exprs
  import opened Scalars
  import opened Scopes
  import opened Inference
  import opened Joins
  import opened Aggregates
  import opened Sorting

  datatype ColumnInfo = ColumnInfo(name: string, ty: DataType, nullable: bool)

  datatype Source = Source(table: nat, name: string, alias: Option<string>, columns: seq<ColumnInfo>)

  datatype SortKey = SortKey(expr: Expr, order: KeyOrder)

  datatype Item = Item(expr: Expr, name: string)

  datatype Plan =
    | Scan(source: Source, filter: Option<Expr>)
    | Join(left: Plan, right: Plan, kind: JoinType, on: Option<Expr>)
    | Filter(input: Plan, cond: Expr)
    | Aggregate(input: Plan, groupBy: seq<Expr>, calls: seq<AggCall<Name>>)
    | Projection(input: Plan, items: seq<Item>)
    | Sort(input: Plan, keys: seq<SortKey>)
    | Distinct(input: Plan)
    | Limit(input: Plan, count: Option<nat>, offset: nat)

  // ---------------------------------------------------------------- scopes

  function ForRelation(columns: seq<ColumnInfo>, qualifiers: seq<string>): (s: Scope)
    ensures |s| == |columns|
    ensures forall i :: 0 <= i < |s| ==>
            s[i] == ScopeColumn(qualifiers, columns[i].name, columns[i].ty, columns[i].nullable)
  {
    seq(|columns|, i requires 0 <= i < |columns| => ScopeColumn(qualifiers, columns[i].name, columns[i].ty,
      columns[i].nullable))
  }

  // An alias does not hide the table's own name.
  function Qualifiers(s: Source): seq<string> { [s.name] + (if s.alias.Some? then [s.alias.value] else []) }

  function SourceScope(s: Source): Scope { ForRelation(s.columns, Qualifiers(s)) }

  // A side that may be padded becomes nullable.
  function JoinScope(kind: JoinType, l: Scope, r: Scope): Scope {
    (if PreservesRight(kind) then Nullable(l) else l) + (if PreservesLeft(kind) then Nullable(r) else r)
  }

  // The names a predicate above this node may use; nothing for nodes that reshape their rows.
  function ScopeOf(p: Plan): Option<Scope> {
    match p
    case Scan(source, _) => Some(SourceScope(source))
    case Join(left, right, kind, _) =>
      (match (ScopeOf(left), ScopeOf(right)) case (Some(l), Some(r)) => Some(JoinScope(kind, l, r)) case _ => None)
    case Filter(input, _) => ScopeOf(input)
    case Sort(input, _) => ScopeOf(input)
    case Distinct(input) => ScopeOf(input)
    case Limit(input, _, _) => ScopeOf(input)
    case _ => None
  }

  // ------------------------------------------------------ aggregate columns

  function AggregateColumn(func: AggFunc, arg: Option<Typed>): Result<Typed, PlanError> {
    if func == Count then Ok(Typed(Int8Type, false))
    else match arg
      case None => Err(NotDefined)
      case Some(t) =>
        if func == Min || func == Max then Ok(Typed(t.ty, true))
        else if func == Avg && NumericRank(t.ty).Some? then Ok(Typed(Float8Type, true))
        else if func == Sum && (t.ty == Int4Type || t.ty == Int8Type) then Ok(Typed(Int8Type, true))
        else if func == Sum && t.ty == Float8Type then Ok(Typed(Float8Type, true))
        else Err(NotDefined)
  }

  function FuncName(func: AggFunc): string {
    match func case Count => "count" case Sum => "sum" case Avg => "avg" case Min => "min" case Max => "max"
  }

  function CallTyped(call: AggCall<Name>, scope: Scope): Result<Typed, PlanError> {
    match call.arg
    case None => AggregateColumn(call.func, None)
    case Some(e) => (match Infer(e, scope) case Err(x) => Err(x) case Ok(t) => AggregateColumn(call.func, Some(t)))
  }

  function Unnamed(name: string, t: Typed): ScopeColumn { ScopeColumn([], name, t.ty, t.nullable) }

  function KeyName(e: Expr): string { if IsColumn(e) then e.v.ref.name else "?column?" }

  // The group keys in order, then one column per aggregate.
  function KeyColumns(groupBy: seq<Expr>, scope: Scope): (r: Result<Scope, PlanError>)
    ensures r.Ok? ==> |r.value| == |groupBy|
  {
    match InferAll(groupBy, scope)
    case Err(x) => Err(x)
    case Ok(ts) => Ok(seq(|ts|, i requires 0 <= i < |ts| => Unnamed(KeyName(groupBy[i]), ts[i])))
  }

  function CallColumns(calls: seq<AggCall<Name>>, scope: Scope): (r: Result<Scope, PlanError>)
    ensures r.Ok? ==> |r.value| == |calls|
    ensures r.Ok? ==> forall i {:trigger r.value[i]} :: 0 <= i < |calls| ==> ColumnOfCall(calls[i], scope, r.value[i])
  {
    if calls == [] then Ok([])
    else
      var n := |calls| - 1;
      match (CallColumns(calls[..n], scope), CallTyped(calls[n], scope))
      case (Ok(cs), Ok(t)) => Ok(cs + [Unnamed(FuncName(calls[n].func), t)])
      case (Err(x), _) => Err(x)
      case (_, Err(x)) => Err(x)
  }

  ghost predicate ColumnOfCall(call: AggCall<Name>, scope: Scope, c: ScopeColumn) {
    CallTyped(call, scope).Ok? && c == Unnamed(FuncName(call.func), CallTyped(call, scope).value)
  }

  function AggregateScope(groupBy: seq<Expr>, calls: seq<AggCall<Name>>, scope: Scope): Result<Scope, PlanError> {
    match (KeyColumns(groupBy, scope), CallColumns(calls, scope))
    case (Ok(ks), Ok(cs)) => Ok(ks + cs)
    case (Err(x), _) => Err(x)
    case (_, Err(x)) => Err(x)
  }

  // -------------------------------------------------------------- lowering

  datatype PhysPlan =
    | SeqScan(table: nat, filter: Option<Phys>)
    | LoopJoin(left: PhysPlan, right: PhysPlan, kind: JoinType, on: Option<Phys>, leftWidth: nat, rightWidth: nat)
    | FilterBy(input: PhysPlan, cond: Phys)
    | GroupBy(input: PhysPlan, groupBy: seq<Phys>, calls: seq<AggCall<nat>>)
    | Project(input: PhysPlan, exprs: seq<Phys>)
    | OrderBy(input: PhysPlan, keys: seq<Phys>, orders: seq<KeyOrder>)
    | Unique(input: PhysPlan)
    | Slice(input: PhysPlan, count: Option<nat>, offset: nat)

  datatype Lowered = Lowered(plan: PhysPlan, scope: Scope)

  function BindOption(rt: Runtime, e: Option<Expr>, scope: Scope): Result<Option<Phys>, PlanError> {
    match e
    case None => Ok(None)
    case Some(x) => (match Bind(rt, x, scope) case Err(err) => Err(err) case Ok(p) => Ok(Some(p)))
  }

  function BindCall(rt: Runtime, call: AggCall<Name>, scope: Scope): Result<AggCall<nat>, PlanError> {
    match BindOption(rt, call.arg, scope)
    case Err(x) => Err(x)
    case Ok(arg) => Ok(AggCall(call.func, arg, call.distinct))
  }

  function BindCalls(rt: Runtime, calls: seq<AggCall<Name>>, scope: Scope): (r: Result<seq<AggCall<nat>>, PlanError>)
    ensures r.Ok? ==> |r.value| == |calls| && forall i :: 0 <= i < |calls| ==>
            BindCall(rt, calls[i], scope) == Ok(r.value[i])
  {
    if calls == [] then Ok([])
    else
      var n := |calls| - 1;
      match (BindCalls(rt, calls[..n], scope), BindCall(rt, calls[n], scope))
      case (Ok(cs), Ok(c)) => Ok(cs + [c])
      case (Err(x), _) => Err(x)
      case (_, Err(x)) => Err(x)
  }

  function ItemExprs(items: seq<Item>): (es: seq<Expr>)
    ensures |es| == |items| && forall i :: 0 <= i < |es| ==> es[i] == items[i].expr
  {
    seq(|items|, i requires 0 <= i < |items| => items[i].expr)
  }

  function ItemColumns(items: seq<Item>, scope: Scope): (r: Result<Scope, PlanError>)
    ensures r.Ok? ==> |r.value| == |items|
  {
    match InferAll(ItemExprs(items), scope)
    case Err(x) => Err(x)
    case Ok(ts) => Ok(seq(|ts|, i requires 0 <= i < |ts| => Unnamed(items[i].name, ts[i])))
  }

  function KeyExprs(keys: seq<SortKey>): (es: seq<Expr>)
    ensures |es| == |keys| && forall i :: 0 <= i < |es| ==> es[i] == keys[i].expr
  {
    seq(|keys|, i requires 0 <= i < |keys| => keys[i].expr)
  }

  function Orders(keys: seq<SortKey>): (os: seq<KeyOrder>)
    ensures |os| == |keys| && forall i :: 0 <= i < |os| ==> os[i] == keys[i].order
  {
    seq(|keys|, i requires 0 <= i < |keys| => keys[i].order)
  }

  // A node binds its own expressions against the shape its input produces.
  function LowerPlan(rt: Runtime, p: Plan): Result<Lowered, PlanError> {
    match p
    case Scan(source, filter) =>
      (match BindOption(rt, filter, SourceScope(source))
       case Err(x) => Err(x)
       case Ok(f) => Ok(Lowered(SeqScan(source.table, f), SourceScope(source))))
    case Join(left, right, kind, on) =>
      (match (LowerPlan(rt, left), LowerPlan(rt, right))
       case (Ok(l), Ok(r)) =>
         var scope := JoinScope(kind, l.scope, r.scope);
         (match BindOption(rt, on, scope)
          case Err(x) => Err(x)
          case Ok(c) => Ok(Lowered(LoopJoin(l.plan, r.plan, kind, c, |l.scope|, |r.scope|), scope)))
       case (Err(x), _) => Err(x)
       case (_, Err(x)) => Err(x))
    case Filter(input, cond) =>
      (match LowerPlan(rt, input)
       case Err(x) => Err(x)
       case Ok(i) =>
         (match Bind(rt, cond, i.scope)
          case Err(x) => Err(x)
          case Ok(e) => Ok(Lowered(FilterBy(i.plan, e), i.scope))))
    case Aggregate(input, groupBy, calls) =>
      (match LowerPlan(rt, input)
       case Err(x) => Err(x)
       case Ok(i) =>
         (match (AggregateScope(groupBy, calls, i.scope), BindAll(rt, groupBy, i.scope), BindCalls(rt, calls, i.scope))
          case (Ok(scope), Ok(ks), Ok(cs)) => Ok(Lowered(GroupBy(i.plan, ks, cs), scope))
          case (Err(x), _, _) => Err(x)
          case (_, Err(x), _) => Err(x)
          case (_, _, Err(x)) => Err(x)))
    case Projection(input, items) =>
      (match LowerPlan(rt, input)
       case Err(x) => Err(x)
       case Ok(i) =>
         (match (BindAll(rt, ItemExprs(items), i.scope), ItemColumns(items, i.scope))
          case (Ok(es), Ok(scope)) => Ok(Lowered(Project(i.plan, es), scope))
          case (Err(x), _) => Err(x)
          case (_, Err(x)) => Err(x)))
    case Sort(input, keys) =>
      (match LowerPlan(rt, input)
       case Err(x) => Err(x)
       case Ok(i) =>
         (match BindAll(rt, KeyExprs(keys), i.scope)
          case Err(x) => Err(x)
          case Ok(ks) => Ok(Lowered(OrderBy(i.plan, ks, Orders(keys)), i.scope))))
    case Distinct(input) =>
      (match LowerPlan(rt, input)
       case Err(x) => Err(x)
       case Ok(i) => Ok(Lowered(Unique(i.plan), i.scope)))
    case Limit(input, count, offset) =>
      (match LowerPlan(rt, input)
       case Err(x) => Err(x)
       case Ok(i) => Ok(Lowered(Slice(i.plan, count, offset), i.scope)))
  }

  // --------------------------------------------------------------- executing

  type Rows = Result<Relation, EvalError>

  // The rows kept, or the first error met.
  function FilterRows(rt: Runtime, on: Option<Phys>, rows: Relation): Rows {
    if rows == [] then Ok([])
    else
      var n := |rows| - 1;
      match FilterRows(rt, on, rows[..n])
      case Err(e) => Err(e)
      case Ok(kept) =>
        match Test(rt, on, rows[n])
        case Err(e) => Err(e)
        case Ok(b) => Ok(if b then kept + [rows[n]] else kept)
  }

  // The first error of a condition over all pairs, in nested order.
  function RowError(rt: Runtime, on: Option<Phys>, l: Row, inner: Relation): Option<EvalError> {
    if inner == [] then None
    else
      var n := |inner| - 1;
      match RowError(rt, on, l, inner[..n])
      case Some(e) => Some(e)
      case None => (match Test(rt, on, l + inner[n]) case Err(e) => Some(e) case Ok(_) => None)
  }

  function PairError(rt: Runtime, on: Option<Phys>, outer: Relation, inner: Relation): Option<EvalError> {
    if outer == [] then None
    else
      var n := |outer| - 1;
      match PairError(rt, on, outer[..n], inner) case Some(e) => Some(e) case None => RowError(rt, on, outer[n], inner)
  }

  ghost function JoinRows(rt: Runtime, kind: JoinType, on: Option<Phys>, outer: Relation, inner: Relation,
                          leftWidth: nat, rightWidth: nat): Rows {
    match PairError(rt, on, outer, inner)
    case Some(e) => Err(e)
    case None => Ok(Joined(kind, outer, inner, KeptBy(rt, on), leftWidth, rightWidth))
  }

  function KeyRows(rt: Runtime, keys: seq<Phys>, rows: Relation): (r: Result<seq<Row>, EvalError>)
    ensures r.Ok? ==> |r.value| == |rows|
  {
    if rows == [] then Ok([])
    else
      var n := |rows| - 1;
      match KeyRows(rt, keys, rows[..n])
      case Err(e) => Err(e)
      case Ok(ks) => (match KeyOf(rt, keys, rows[n]) case Err(e) => Err(e) case Ok(k) => Ok(ks + [k]))
  }

  lemma {:induction false} KeyRowAt(rt: Runtime, keys: seq<Phys>, rows: Relation, i: nat)
    requires KeyRows(rt, keys, rows).Ok? && i < |rows|
    ensures KeyOf(rt, keys, rows[i]) == Ok(KeyRows(rt, keys, rows).value[i])
  {
    if i < |rows| - 1 {
      KeyRowAt(rt, keys, rows[..|rows| - 1], i);
    }
  }

  function Results(rt: Runtime, calls: seq<AggCall<nat>>, members: Relation): (r: Result<Row, EvalError>)
    ensures r.Ok? ==> ResultsAre(rt, calls, members, r.value)
  {
    if calls == [] then Ok([])
    else
      var n := |calls| - 1;
      match Results(rt, calls[..n], members)
      case Err(e) => Err(e)
      case Ok(vs) => (match Folded(rt, calls[n], members) case Err(e) => Err(e) case Ok(a) => Ok(vs + [Finish(a)]))
  }

  function GroupRowsFor(rt: Runtime, calls: seq<AggCall<nat>>, rows: Relation, keys: seq<Row>,
                        groups: seq<Row>): (r: Rows)
    requires |rows| == |keys|
    ensures r.Ok? ==> |r.value| == |groups|
    ensures r.Ok? ==> forall g :: 0 <= g < |groups| ==>
            GroupRow(rt, calls, Members(rows, keys, groups[g]), groups[g], r.value[g])
  {
    if groups == [] then Ok([])
    else
      var n := |groups| - 1;
      match (GroupRowsFor(rt, calls, rows, keys, groups[..n]), Results(rt, calls, Members(rows, keys, groups[n])))
      case (Ok(out), Ok(vs)) => assert (groups[n] + vs)[|groups[n]|..] == vs; Ok(out + [groups[n] + vs])
      case (Err(e), _) => Err(e)
      case (_, Err(e)) => Err(e)
  }

  ghost function GroupRows(rt: Runtime, groupBy: seq<Phys>, calls: seq<AggCall<nat>>, rows: Relation): Rows {
    match KeyRows(rt, groupBy, rows)
    case Err(e) => Err(e)
    case Ok(keys) => GroupRowsFor(rt, calls, rows, keys, GroupsOf(groupBy, keys))
  }

  function Paired(rows: Relation, keys: seq<Row>): (s: seq<Keyed>)
    requires |rows| == |keys|
    ensures |s| == |rows| && forall i :: 0 <= i < |s| ==> s[i] == Keyed(keys[i], rows[i])
  {
    seq(|rows|, i requires 0 <= i < |rows| => Keyed(keys[i], rows[i]))
  }

  function Unpaired(s: seq<Keyed>): (rows: Relation)
    ensures |rows| == |s| && forall i :: 0 <= i < |s| ==> rows[i] == s[i].row
  {
    seq(|s|, i requires 0 <= i < |s| => s[i].row)
  }

  // Keys that cannot be compared are an error; which of several is not modelled.
  ghost function SortRows(rt: Runtime, keys: seq<Phys>, orders: seq<KeyOrder>, rows: Relation): Rows {
    match KeyRows(rt, keys, rows)
    case Err(e) => Err(e)
    case Ok(ks) => if AllComparable(Paired(rows, ks), |orders|) then Ok(Unpaired(StableSort(Paired(rows, ks), orders)))
      else Err(Malformed)
  }

  function SliceRows(rows: Relation, count: Option<nat>, offset: nat): Relation {
    var rest := rows[if offset <= |rows| then offset else |rows|..];
    if count.Some? && count.value < |rest| then rest[..count.value] else rest
  }

  type Database = nat -> Relation

  ghost function Stream(rt: Runtime, db: Database, p: PhysPlan): Rows {
    match p
    case SeqScan(table, filter) => FilterRows(rt, filter, db(table))
    case LoopJoin(left, right, kind, on, leftWidth, rightWidth) =>
      (match (Stream(rt, db, left), Stream(rt, db, right))
       case (Ok(outer), Ok(inner)) => JoinRows(rt, kind, on, outer, inner, leftWidth, rightWidth)
       case (Err(e), _) => Err(e)
       case (_, Err(e)) => Err(e))
    case FilterBy(input, cond) =>
      (match Stream(rt, db, input) case Err(e) => Err(e) case Ok(rows) => FilterRows(rt, Some(cond), rows))
    case GroupBy(input, groupBy, calls) =>
      (match Stream(rt, db, input) case Err(e) => Err(e) case Ok(rows) => GroupRows(rt, groupBy, calls, rows))
    case Project(input, exprs) =>
      (match Stream(rt, db, input) case Err(e) => Err(e) case Ok(rows) => KeyRows(rt, exprs, rows))
    case OrderBy(input, keys, orders) =>
      (match Stream(rt, db, input) case Err(e) => Err(e) case Ok(rows) => SortRows(rt, keys, orders, rows))
    case Unique(input) => (match Stream(rt, db, input) case Err(e) => Err(e) case Ok(rows) => Ok(FirstSeen(rows)))
    case Slice(input, count, offset) =>
      (match Stream(rt, db, input) case Err(e) => Err(e) case Ok(rows) => Ok(SliceRows(rows, count, offset)))
  }
}
