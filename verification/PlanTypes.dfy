// Every row a plan puts out has the types and nullability its scope declares.
module PlanTypes {
  import opened Wrappers
  import opened Values
  import opened Exprs
  import opened Scalars
  import opened Evaluation
  import opened Scopes
  import opened Inference
  import opened Joins
  import opened Aggregates
  import opened Summaries
  import opened Grouping
  import opened Sorting
  import opened Plans

  ghost predicate AllConform(rows: Relation, scope: Scope) {
    forall r {:trigger Conforms(r, scope)} :: r in rows ==> Conforms(r, scope)
  }

  lemma {:induction false} Subset(rows: Relation, some: Relation, scope: Scope)
    requires AllConform(rows, scope) && forall r :: r in some ==> r in rows
    ensures AllConform(some, scope)
  {
    forall r | r in some ensures Conforms(r, scope) {
      assert r in rows;
    }
  }

  // ---------------------------------------------------------------- subsets

  lemma {:induction false} FilteredIn(rt: Runtime, on: Option<Phys>, rows: Relation)
    requires FilterRows(rt, on, rows).Ok?
    ensures forall r :: r in FilterRows(rt, on, rows).value ==> r in rows
  {
    if rows != [] {
      var n := |rows| - 1;
      FilteredIn(rt, on, rows[..n]);
      assert rows == rows[..n] + [rows[n]];
    }
  }

  lemma {:induction false} SeenIn(rows: Relation)
    ensures forall r :: r in FirstSeen(rows) <==> r in rows
  {
    if rows != [] {
      var n := |rows| - 1;
      SeenIn(rows[..n]);
      assert rows == rows[..n] + [rows[n]];
    }
  }

  lemma {:induction false} SortedRowsIn(rows: Relation, keys: seq<Row>, orders: seq<KeyOrder>)
    requires |rows| == |keys|
    ensures forall r :: r in Unpaired(StableSort(Plans.Paired(rows, keys), orders)) ==> r in rows
  {
    var s := Plans.Paired(rows, keys);
    SortedIn(s, orders);
    var t := StableSort(s, orders);
    forall r | r in Unpaired(t) ensures r in rows {
      var i :| 0 <= i < |t| && t[i].row == r;
      assert t[i] in t && t[i] in s;
      var j :| 0 <= j < |s| && s[j] == t[i];
      assert rows[j] == r;
    }
  }

  // ------------------------------------------------------------------- joins

  lemma {:induction false} MatchesAll(l: Row, inner: Relation, keep: Row -> bool, ok: Row -> bool)
    requires forall r :: r in inner ==> ok(l + r)
    ensures forall x :: x in Matches(l, inner, keep) ==> ok(x)
  {
    if inner != [] {
      var r, front := inner[|inner| - 1], inner[..|inner| - 1];
      assert inner == front + [r];
      MatchesAll(l, front, keep, ok);
    }
  }

  lemma {:induction false} LeftPartAll(outer: Relation, inner: Relation, keep: Row -> bool, pad: Option<nat>,
                                       ok: Row -> bool)
    requires forall l, r :: l in outer && r in inner ==> ok(l + r)
    requires pad.Some? ==> forall l :: l in outer ==> ok(l + Nulls(pad.value))
    ensures forall x :: x in LeftPart(outer, inner, keep, pad) ==> ok(x)
  {
    if outer != [] {
      var l, front := outer[|outer| - 1], outer[..|outer| - 1];
      assert outer == front + [l];
      LeftPartAll(front, inner, keep, pad, ok);
      assert l in outer;
      MatchesAll(l, inner, keep, ok);
    }
  }

  lemma {:induction false} UnmatchedAll(outer: Relation, inner: Relation, keep: Row -> bool, width: nat,
                                        ok: Row -> bool)
    requires forall r :: r in inner ==> ok(Nulls(width) + r)
    ensures forall x :: x in Unmatched(outer, inner, keep, width) ==> ok(x)
  {
    if inner != [] {
      var r, front := inner[|inner| - 1], inner[..|inner| - 1];
      assert inner == front + [r];
      UnmatchedAll(outer, front, keep, width, ok);
    }
  }

  lemma {:induction false} Widened(row: Row, scope: Scope)
    requires Conforms(row, scope)
    ensures Conforms(row, Nullable(scope))
  {
    forall i | 0 <= i < |row| ensures Fits(row[i], Typed(Nullable(scope)[i].ty, Nullable(scope)[i].nullable)) {
      assert Fits(row[i], Typed(scope[i].ty, scope[i].nullable));
    }
  }

  lemma {:induction false} NullsConform(scope: Scope)
    ensures Conforms(Nulls(|scope|), Nullable(scope))
  {
  }

  lemma {:induction false} BothConform(l: Row, r: Row, s: Scope, t: Scope)
    requires Conforms(l, s) && Conforms(r, t)
    ensures Conforms(l + r, s + t)
  {
    var row, scope := l + r, s + t;
    forall i | 0 <= i < |row| ensures Fits(row[i], Typed(scope[i].ty, scope[i].nullable)) {
      if i < |l| {
        assert Fits(l[i], Typed(s[i].ty, s[i].nullable));
      } else {
        assert Fits(r[i - |l|], Typed(t[i - |l|].ty, t[i - |l|].nullable));
      }
    }
  }

  lemma {:induction false} PairConforms(kind: JoinType, l: Row, r: Row, s: Scope, t: Scope)
    requires Conforms(l, s) && Conforms(r, t)
    ensures Conforms(l + r, JoinScope(kind, s, t))
  {
    Widened(l, s);
    Widened(r, t);
    BothConform(l, r, if PreservesRight(kind) then Nullable(s) else s, if PreservesLeft(kind) then Nullable(t) else t);
  }

  lemma {:induction false} PadConforms(kind: JoinType, s: Scope, t: Scope)
    ensures PreservesLeft(kind) ==> forall l :: Conforms(l, s) ==> Conforms(l + Nulls(|t|), JoinScope(kind, s, t))
    ensures PreservesRight(kind) ==> forall r :: Conforms(r, t) ==> Conforms(Nulls(|s|) + r, JoinScope(kind, s, t))
  {
    NullsConform(s);
    NullsConform(t);
    var s', t' := if PreservesRight(kind) then Nullable(s) else s, if PreservesLeft(kind) then Nullable(t) else t;
    if PreservesLeft(kind) {
      forall l | Conforms(l, s) ensures Conforms(l + Nulls(|t|), JoinScope(kind, s, t)) {
        Widened(l, s);
        BothConform(l, Nulls(|t|), s', t');
      }
    }
    if PreservesRight(kind) {
      forall r | Conforms(r, t) ensures Conforms(Nulls(|s|) + r, JoinScope(kind, s, t)) {
        Widened(r, t);
        BothConform(Nulls(|s|), r, s', t');
      }
    }
  }

  lemma {:induction false} JoinConforms(kind: JoinType, outer: Relation, inner: Relation, keep: Row -> bool, s: Scope,
                                        t: Scope)
    requires AllConform(outer, s) && AllConform(inner, t)
    ensures AllConform(Joined(kind, outer, inner, keep, |s|, |t|), JoinScope(kind, s, t))
  {
    var scope := JoinScope(kind, s, t);
    var ok := (x: Row) => Conforms(x, scope);
    PadConforms(kind, s, t);
    forall l, r | l in outer && r in inner ensures ok(l + r) {
      assert Conforms(l, s) && Conforms(r, t);
      PairConforms(kind, l, r, s, t);
    }
    forall l | l in outer && PreservesLeft(kind) ensures ok(l + Nulls(|t|)) {
      assert Conforms(l, s);
    }
    forall r | r in inner && PreservesRight(kind) ensures ok(Nulls(|s|) + r) {
      assert Conforms(r, t);
    }
    LeftPartAll(outer, inner, keep, if PreservesLeft(kind) then Some(|t|) else None, ok);
    if PreservesRight(kind) {
      UnmatchedAll(outer, inner, keep, |s|, ok);
    }
    forall x | x in Joined(kind, outer, inner, keep, |s|, |t|) ensures Conforms(x, scope) {
      assert ok(x);
    }
  }

  // ------------------------------------------------------ evaluated expressions

  ghost predicate AllUniform(es: seq<Expr>, scope: Scope) { forall i :: 0 <= i < |es| ==> Uniform(es[i], scope) }

  // A row made by evaluating expressions has the types they were given.
  lemma {:induction false} EvaluatedFits(rt: Runtime, es: seq<Expr>, scope: Scope, row: Row, ps: seq<Phys>,
                                         ts: seq<Typed>, key: Row)
    requires Conforms(row, scope) && AllUniform(es, scope) && InferAll(es, scope) == Ok(ts)
             && BindAll(rt, es, scope) == Ok(ps)
    requires KeyOf(rt, ps, row) == Ok(key)
    ensures |key| == |es| && forall i :: 0 <= i < |es| ==> Fits(key[i], ts[i])
  {
    CollectedAll(EvalAll(rt, ps, row));
    forall i | 0 <= i < |es| ensures Fits(key[i], ts[i]) {
      InferenceSound(rt, es[i], scope, row, ps[i]);
    }
  }

  lemma {:induction false} ProjectConforms(rt: Runtime, items: seq<Item>, scope: Scope, out: Scope, rows: Relation,
                                           ps: seq<Phys>, result: seq<Row>)
    requires AllConform(rows, scope) && AllUniform(ItemExprs(items), scope)
             && BindAll(rt, ItemExprs(items), scope) == Ok(ps)
    requires ItemColumns(items, scope) == Ok(out) && KeyRows(rt, ps, rows) == Ok(result)
    ensures AllConform(result, out)
  {
    var ts := InferAll(ItemExprs(items), scope).value;
    forall r | r in result ensures Conforms(r, out) {
      var i :| 0 <= i < |result| && result[i] == r;
      assert rows[i] in rows && Conforms(rows[i], scope);
      KeyRowAt(rt, ps, rows, i);
      EvaluatedFits(rt, ItemExprs(items), scope, rows[i], ps, ts, r);
    }
  }

  // --------------------------------------------------------------- aggregates

  lemma {:induction false} CountedTyped(rt: Runtime, call: AggCall<nat>, e: Expr, scope: Scope, rows: Relation,
                                        t: Typed)
    requires AllConform(rows, scope) && Uniform(e, scope) && Infer(e, scope) == Ok(t) && call.arg.Some?
             && Bind(rt, e, scope) == Ok(call.arg.value)
    ensures forall i :: 0 <= i < |Counted(rt, call, rows)| ==>
            Counted(rt, call, rows)[i] != Null && TypeOf(Counted(rt, call, rows)[i]) == Some(t.ty)
  {
    if rows != [] {
      var n := |rows| - 1;
      forall r | r in rows[..n] ensures Conforms(r, scope) {
        assert r in rows;
      }
      CountedTyped(rt, call, e, scope, rows[..n], t);
      assert rows[n] in rows && Conforms(rows[n], scope);
      if Eval(rt, call.arg.value, rows[n]).Ok? {
        InferenceSound(rt, e, scope, rows[n], call.arg.value);
      }
    }
  }

  lemma {:induction false} SummaryTyped(func: AggFunc, vs: seq<Value>, x: Value, t: Typed)
    requires ResultIs(func, vs, x) && AggregateColumn(func, Some(t)).Ok?
    requires forall i :: 0 <= i < |vs| ==> vs[i] != Null && TypeOf(vs[i]) == Some(t.ty)
    ensures Fits(x, AggregateColumn(func, Some(t)).value)
  {
    if vs != [] && (func == Min || func == Max) {
      assert x in vs;
    } else if vs != [] && func == Sum {
      assert TypeOf(vs[0]) == Some(t.ty);
    }
  }

  lemma {:induction false} CallFitsColumn(rt: Runtime, call: AggCall<Name>, bound: AggCall<nat>, scope: Scope,
                                          members: Relation, c: ScopeColumn)
    requires AllConform(members, scope) && (call.arg.Some? ==> Uniform(call.arg.value, scope))
             && BindCall(rt, call, scope) == Ok(bound)
    requires ColumnOfCall(call, scope, c) && Folded(rt, bound, members).Ok?
    ensures Fits(Finish(Folded(rt, bound, members).value), Typed(c.ty, c.nullable))
  {
    if call.arg.None? {
      CountStarMeans(rt, bound, members);
    } else {
      var t := Infer(call.arg.value, scope).value;
      CountedTyped(rt, bound, call.arg.value, scope, members, t);
      AggregateMeans(rt, bound, members);
      SummaryTyped(bound.func, Counted(rt, bound, members), Finish(Folded(rt, bound, members).value), t);
    }
  }

  lemma {:induction false} MembersIn(rows: Relation, keys: seq<Row>, k: Row)
    requires |rows| == |keys|
    ensures forall r :: r in Members(rows, keys, k) ==> r in rows
  {
    forall r | r in Members(rows, keys, k) ensures r in rows {
      var m :| 0 <= m < |Members(rows, keys, k)| && Members(rows, keys, k)[m] == r;
      var i := MemberAt(rows, keys, k, m);
    }
  }

  ghost predicate CallsUniform(calls: seq<AggCall<Name>>, scope: Scope) {
    forall i :: 0 <= i < |calls| && calls[i].arg.Some? ==> Uniform(calls[i].arg.value, scope)
  }

  lemma {:induction false} ResultsConform(rt: Runtime, calls: seq<AggCall<Name>>, bound: seq<AggCall<nat>>,
                                          scope: Scope, members: Relation, columns: Scope, values: Row)
    requires AllConform(members, scope) && CallsUniform(calls, scope) && BindCalls(rt, calls, scope) == Ok(bound)
    requires CallColumns(calls, scope) == Ok(columns) && ResultsAre(rt, bound, members, values)
    ensures Conforms(values, columns)
  {
    forall i | 0 <= i < |values| ensures Fits(values[i], Typed(columns[i].ty, columns[i].nullable)) {
      CallFitsColumn(rt, calls[i], bound[i], scope, members, columns[i]);
    }
  }

  lemma {:induction false} KeyFrom(ps: seq<Phys>, keys: seq<Row>, k: Row) returns (i: nat)
    requires k in GroupsOf(ps, keys) && (ps != [] || keys != [])
    ensures i < |keys| && keys[i] == k
  {
    SeenIn(keys);
    i :| 0 <= i < |keys| && keys[i] == k;
  }

  lemma {:induction false} KeyConforms(rt: Runtime, groupBy: seq<Expr>, scope: Scope, rows: Relation, ps: seq<Phys>,
                                       keys: seq<Row>, columns: Scope, k: Row)
    requires AllConform(rows, scope) && AllUniform(groupBy, scope) && BindAll(rt, groupBy, scope) == Ok(ps)
    requires KeyColumns(groupBy, scope) == Ok(columns) && KeyRows(rt, ps, rows) == Ok(keys) && k in GroupsOf(ps, keys)
    ensures Conforms(k, columns)
  {
    if ps == [] && keys == [] {
      assert k == [] && columns == [];
    } else {
      var i := KeyFrom(ps, keys, k);
      assert rows[i] in rows && Conforms(rows[i], scope);
      KeyRowAt(rt, ps, rows, i);
      var ts := InferAll(groupBy, scope).value;
      EvaluatedFits(rt, groupBy, scope, rows[i], ps, ts, k);
      forall j | 0 <= j < |k| ensures Fits(k[j], Typed(columns[j].ty, columns[j].nullable)) {
        assert columns[j] == Unnamed(KeyName(groupBy[j]), ts[j]);
      }
    }
  }

  lemma {:induction false} PrefixConforms(k: Row, r: Row, ks: Scope, cs: Scope)
    requires k <= r && Conforms(k, ks) && Conforms(r[|k|..], cs)
    ensures Conforms(r, ks + cs)
  {
    BothConform(k, r[|k|..], ks, cs);
    assert k + r[|k|..] == r;
  }

  lemma {:induction false} GroupConforms(rt: Runtime, groupBy: seq<Expr>, calls: seq<AggCall<Name>>, scope: Scope,
                                         ks: Scope, cs: Scope, rows: Relation, keys: seq<Row>, ps: seq<Phys>,
                                         bound: seq<AggCall<nat>>, k: Row, r: Row)
    requires AllConform(rows, scope) && AllUniform(groupBy, scope) && CallsUniform(calls, scope)
    requires BindAll(rt, groupBy, scope) == Ok(ps) && BindCalls(rt, calls, scope) == Ok(bound)
    requires KeyColumns(groupBy, scope) == Ok(ks) && CallColumns(calls, scope) == Ok(cs)
    requires KeyRows(rt, ps, rows) == Ok(keys) && k in GroupsOf(ps, keys)
             && GroupRow(rt, bound, Members(rows, keys, k), k, r)
    ensures Conforms(r, ks + cs)
  {
    KeyConforms(rt, groupBy, scope, rows, ps, keys, ks, k);
    MembersIn(rows, keys, k);
    Subset(rows, Members(rows, keys, k), scope);
    ResultsConform(rt, calls, bound, scope, Members(rows, keys, k), cs, r[|k|..]);
    PrefixConforms(k, r, ks, cs);
  }

  lemma {:induction false} GroupsConform(rt: Runtime, groupBy: seq<Expr>, calls: seq<AggCall<Name>>, scope: Scope,
                                         out: Scope, rows: Relation, ps: seq<Phys>, bound: seq<AggCall<nat>>,
                                         result: Relation)
    requires AllConform(rows, scope) && AllUniform(groupBy, scope) && CallsUniform(calls, scope)
    requires BindAll(rt, groupBy, scope) == Ok(ps) && BindCalls(rt, calls, scope) == Ok(bound)
             && AggregateScope(groupBy, calls, scope) == Ok(out)
    requires GroupRows(rt, ps, bound, rows) == Ok(result)
    ensures AllConform(result, out)
  {
    var keys := KeyRows(rt, ps, rows).value;
    var ks, cs := KeyColumns(groupBy, scope).value, CallColumns(calls, scope).value;
    var groups := GroupsOf(ps, keys);
    forall r | r in result ensures Conforms(r, out) {
      var g :| 0 <= g < |result| && result[g] == r;
      GroupConforms(rt, groupBy, calls, scope, ks, cs, rows, keys, ps, bound, groups[g], r);
    }
  }

  // ---------------------------------------------------------------- whole plans

  // CASE results and coalesce arguments agree on a type wherever an expression decides a column.
  ghost predicate Typable(rt: Runtime, p: Plan) {
    match p
    case Scan(_, _) => true
    case Join(left, right, _, _) => Typable(rt, left) && Typable(rt, right)
    case Aggregate(input, groupBy, calls) =>
      && Typable(rt, input)
      && (LowerPlan(rt, input).Ok? ==>
        AllUniform(groupBy, LowerPlan(rt, input).value.scope) && CallsUniform(calls, LowerPlan(rt, input).value.scope))
    case Projection(input, items) =>
      Typable(rt, input) && (LowerPlan(rt, input).Ok? ==>
        AllUniform(ItemExprs(items), LowerPlan(rt, input).value.scope))
    case Filter(input, _) => Typable(rt, input)
    case Sort(input, _) => Typable(rt, input)
    case Distinct(input) => Typable(rt, input)
    case Limit(input, _, _) => Typable(rt, input)
  }

  // Stored rows have the types their tables declare.
  ghost predicate Stocked(db: Database, p: Plan) {
    match p
    case Scan(source, _) => AllConform(db(source.table), SourceScope(source))
    case Join(left, right, _, _) => Stocked(db, left) && Stocked(db, right)
    case Aggregate(input, _, _) => Stocked(db, input)
    case Projection(input, _) => Stocked(db, input)
    case Filter(input, _) => Stocked(db, input)
    case Sort(input, _) => Stocked(db, input)
    case Distinct(input) => Stocked(db, input)
    case Limit(input, _, _) => Stocked(db, input)
  }

  lemma {:induction false} SlicedIn(rows: Relation, count: Option<nat>, offset: nat)
    ensures forall r :: r in SliceRows(rows, count, offset) ==> r in rows
  {
  }

  lemma {:induction false} PlanConforms(rt: Runtime, db: Database, p: Plan)
    requires LowerPlan(rt, p).Ok? && Typable(rt, p) && Stocked(db, p) && Stream(rt, db, LowerPlan(rt, p).value.plan).Ok?
    ensures AllConform(Stream(rt, db, LowerPlan(rt, p).value.plan).value, LowerPlan(rt, p).value.scope)
    decreases p, 1
  {
    var x := LowerPlan(rt, p).value;
    match p
    case Scan(source, _) =>
      FilteredIn(rt, x.plan.filter, db(source.table));
      Subset(db(source.table), Stream(rt, db, x.plan).value, x.scope);
    case Join(left, right, kind, _) =>
      PlanConforms(rt, db, left);
      PlanConforms(rt, db, right);
      JoinConforms(kind, Stream(rt, db, x.plan.left).value, Stream(rt, db, x.plan.right).value, KeptBy(rt, x.plan.on),
                   LowerPlan(rt, left).value.scope, LowerPlan(rt, right).value.scope);
    case Aggregate(input, groupBy, calls) =>
      PlanConforms(rt, db, input);
      GroupsConform(rt, groupBy, calls, LowerPlan(rt, input).value.scope, x.scope, Stream(rt, db, x.plan.input).value,
        x.plan.groupBy, x.plan.calls,
                    Stream(rt, db, x.plan).value);
    case Projection(input, items) =>
      PlanConforms(rt, db, input);
      ProjectConforms(rt, items, LowerPlan(rt, input).value.scope, x.scope, Stream(rt, db, x.plan.input).value,
        x.plan.exprs, Stream(rt, db, x.plan).value);
    case _ => SameShape(rt, db, p);
  }

  // Nodes that only drop or reorder rows.
  lemma {:induction false} SameShape(rt: Runtime, db: Database, p: Plan)
    requires p.Filter? || p.Sort? || p.Distinct? || p.Limit?
    requires LowerPlan(rt, p).Ok? && Typable(rt, p) && Stocked(db, p) && Stream(rt, db, LowerPlan(rt, p).value.plan).Ok?
    ensures AllConform(Stream(rt, db, LowerPlan(rt, p).value.plan).value, LowerPlan(rt, p).value.scope)
    decreases p, 0
  {
    var x := LowerPlan(rt, p).value;
    PlanConforms(rt, db, p.input);
    var rows := Stream(rt, db, x.plan.input).value;
    match p
    case Filter(_, _) => FilteredIn(rt, Some(x.plan.cond), rows);
    case Sort(_, _) => SortedRowsIn(rows, KeyRows(rt, x.plan.keys, rows).value, x.plan.orders);
    case Distinct(_) => SeenIn(rows);
    case Limit(_, count, offset) => SlicedIn(rows, count, offset);
    Subset(rows, Stream(rt, db, x.plan).value, x.scope);
  }
}
