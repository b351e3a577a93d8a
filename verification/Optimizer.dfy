// The optimised plan puts out the same rows in the same order.
module Optimizer {
  import opened Wrappers
  import opened Values
  import opened Exprs
  import opened Scalars
  import opened Evaluation
  import opened Scopes
  import opened Inference
  import opened Joins
  import opened JoinFilters
  import opened Aggregates
  import opened Sorting
  import opened Plans
  import opened PlanTypes
  import opened Conjuncts
  import opened Sides
  import opened Pushdown
  import opened JoinPushdown

  // ------------------------------------------------------------- what is assumed

  ghost predicate SortPair(rt: Runtime, keys: seq<Phys>, a: Row, b: Row) {
    KeyOf(rt, keys, a).Ok? && KeyOf(rt, keys, b).Ok?
      && KeysComparable(KeyOf(rt, keys, a).value, KeyOf(rt, keys, b).value)
  }

  // Sort keys evaluate, and compare, on all rows of the declared types.
  ghost predicate SortSafe(rt: Runtime, keys: seq<Phys>, scope: Scope) {
    forall a, b {:trigger SortPair(rt, keys, a, b)} :: TypedRow(a, scope) && TypedRow(b, scope) ==>
      SortPair(rt, keys, a, b)
  }

  lemma {:induction false} CollectedColumns(rt: Runtime, keys: seq<Phys>, row: Row)
    requires forall i :: 0 <= i < |keys| ==> keys[i].Var? && keys[i].v < |row|
    ensures KeyOf(rt, keys, row).Ok? && |KeyOf(rt, keys, row).value| == |keys|
    ensures forall i :: 0 <= i < |keys| ==> KeyOf(rt, keys, row).value[i] == row[keys[i].v]
  {
    if keys != [] {
      var n := |keys| - 1;
      CollectedColumns(rt, keys[..n], row);
      assert EvalAll(rt, keys, row)[..n] == EvalAll(rt, keys[..n], row);
    }
  }

  // Sorting by columns is safe.
  lemma {:induction false} ColumnsSortSafe(rt: Runtime, keys: seq<Phys>, scope: Scope)
    requires forall i :: 0 <= i < |keys| ==> keys[i].Var? && keys[i].v < |scope|
    ensures SortSafe(rt, keys, scope)
  {
    forall a, b | TypedRow(a, scope) && TypedRow(b, scope) ensures SortPair(rt, keys, a, b) {
      CollectedColumns(rt, keys, a);
      CollectedColumns(rt, keys, b);
      ColumnsCompare(keys, scope, a, b, KeyOf(rt, keys, a).value, KeyOf(rt, keys, b).value);
    }
  }

  lemma {:induction false} ColumnsCompare(keys: seq<Phys>, scope: Scope, a: Row, b: Row, x: Row, y: Row)
    requires TypedRow(a, scope) && TypedRow(b, scope) && |x| == |y| == |keys|
    requires forall i :: 0 <= i < |keys| ==> keys[i].Var? && keys[i].v < |scope|
    requires forall i :: 0 <= i < |keys| ==> x[i] == a[keys[i].v] && y[i] == b[keys[i].v]
    ensures KeysComparable(x, y)
  {
    forall i | 0 <= i < |x| ensures ColumnComparable(x[i], y[i]) {
      var j := keys[i].v;
      assert (a[j] == Null || TypeOf(a[j]) == Some(scope[j].ty)) && (b[j] == Null || TypeOf(b[j]) == Some(scope[j].ty));
    }
  }

  // Nothing pushed into this plan would meet a projection that lets it through.
  predicate Open(p: Plan) {
    match p
    case Filter(input, _) => Open(input)
    case Sort(input, _) => Open(input)
    case Projection(_, items) => !IsTransparent(items)
    case _ => true
  }

  // Every predicate resolves where it stands and does not fail; joins are over tables and joins;
  // no filter stands over a bare column list.
  ghost predicate Sound(rt: Runtime, p: Plan) {
    match p
    case Scan(source, filter) => AllSafe(rt, SplitOption(filter), SourceScope(source))
    case Join(left, right, kind, on) =>
      && Sound(rt, left) && Sound(rt, right) && ScopeOf(left).Some? && ScopeOf(right).Some?
      && Pending(rt, SplitOption(on), JoinScope(kind, ScopeOf(left).value, ScopeOf(right).value))
    case Filter(input, cond) =>
      && Sound(rt, input) && Open(input)
      && (LowerPlan(rt, input).Ok? ==> Pending(rt, SplitConjunction(cond), LowerPlan(rt, input).value.scope))
    case Sort(input, keys) =>
      && Sound(rt, input)
      && (LowerPlan(rt, p).Ok? ==> SortSafe(rt, LowerPlan(rt, p).value.plan.keys, LowerPlan(rt, p).value.scope))
    case Aggregate(input, _, _) => Sound(rt, input)
    case Projection(input, _) => Sound(rt, input)
    case Distinct(input) => Sound(rt, input)
    case Limit(input, _, _) => Sound(rt, input)
  }

  lemma {:induction false} ScopeLowered(rt: Runtime, p: Plan)
    requires ScopeOf(p).Some? && LowerPlan(rt, p).Ok?
    ensures LowerPlan(rt, p).value.scope == ScopeOf(p).value
  {
    match p
    case Join(left, right, _, _) =>
      ScopeLowered(rt, left);
      ScopeLowered(rt, right);
    case Filter(input, _) => ScopeLowered(rt, input);
    case Sort(input, _) => ScopeLowered(rt, input);
    case Distinct(input) => ScopeLowered(rt, input);
    case Limit(input, _, _) => ScopeLowered(rt, input);
    case _ =>
  }

  lemma {:induction false} ScopedOpen(p: Plan)
    requires ScopeOf(p).Some?
    ensures Open(p)
  {
    match p
    case Filter(input, _) => ScopedOpen(input);
    case Sort(input, _) => ScopedOpen(input);
    case _ =>
  }

  // ----------------------------------------------------------------- filtering

  ghost function Filtered(r: Rows, keep: Row -> bool): Rows {
    match r case Err(e) => Err(e) case Ok(rows) => Ok(Where(rows, keep))
  }

  ghost predicate Decides(rt: Runtime, on: Option<Phys>, keep: Row -> bool, row: Row) {
    Test(rt, on, row) == Ok(keep(row))
  }

  lemma {:induction false} FilterIsWhere(rt: Runtime, on: Option<Phys>, rows: Relation, keep: Row -> bool)
    requires forall r {:trigger Decides(rt, on, keep, r)} :: r in rows ==> Decides(rt, on, keep, r)
    ensures FilterRows(rt, on, rows) == Ok(Where(rows, keep))
  {
    if rows != [] {
      var n := |rows| - 1;
      forall r | r in rows[..n] ensures Decides(rt, on, keep, r) {
        assert r in rows;
      }
      FilterIsWhere(rt, on, rows[..n], keep);
      assert rows[n] in rows && Decides(rt, on, keep, rows[n]);
    }
  }

  lemma {:induction false} Declared(row: Row, scope: Scope)
    requires Conforms(row, scope)
    ensures TypedRow(row, scope)
  {
    forall i | 0 <= i < |row| ensures row[i] == Null || TypeOf(row[i]) == Some(scope[i].ty) {
      assert Fits(row[i], Typed(scope[i].ty, scope[i].nullable));
    }
  }

  // A combined list, bound, decides as its members do.
  lemma {:induction false} CombinedDecides(rt: Runtime, es: seq<Expr>, scope: Scope, row: Row)
    requires AllSafe(rt, es, scope) && TypedRow(row, scope)
    ensures BindOption(rt, Combine(es), scope).Ok?
            && Decides(rt, BindOption(rt, Combine(es), scope).value, Passing(rt, es, scope), row)
  {
    if es != [] {
      CombineMeans(rt, es, scope);
      var e := Combine(es).value;
      assert Answers3(rt, Bind(rt, e, scope).value, row);
      assert Holds(rt, e, scope, row) <==> AllHold(rt, es, scope, row);
    }
  }

  lemma {:induction false} SplitDecides(rt: Runtime, e: Option<Expr>, scope: Scope, row: Row)
    requires AllSafe(rt, SplitOption(e), scope) && TypedRow(row, scope)
    ensures BindOption(rt, e, scope).Ok?
            && Decides(rt, BindOption(rt, e, scope).value, Passing(rt, SplitOption(e), scope), row)
  {
    if e.Some? {
      SplitMeans(rt, e.value, scope);
      assert Answers3(rt, Bind(rt, e.value, scope).value, row);
      assert Holds(rt, e.value, scope, row) <==> AllHold(rt, SplitConjunction(e.value), scope, row);
    }
  }

  // Filters one after the other, as one list.
  lemma {:induction false} PassBoth(rt: Runtime, a: seq<Expr>, b: seq<Expr>, scope: Scope, rows: Relation)
    ensures Where(Where(rows, Passing(rt, a, scope)), Passing(rt, b, scope)) == Where(rows, Passing(rt, a + b, scope))
    ensures Where(Where(rows, Passing(rt, a, scope)), Passing(rt, b, scope)) == Where(rows, Passing(rt, b + a, scope))
  {
    forall r | r in rows
      ensures Passing(rt, a + b, scope)(r) == (Passing(rt, a, scope)(r) && Passing(rt, b, scope)(r))
      ensures Passing(rt, b + a, scope)(r) == (Passing(rt, a, scope)(r) && Passing(rt, b, scope)(r))
    {
      HoldBoth(rt, a, b, scope, r);
      HoldBoth(rt, b, a, scope, r);
    }
    WhereTwice(rows, Passing(rt, a, scope), Passing(rt, b, scope), Passing(rt, a + b, scope));
    WhereTwice(rows, Passing(rt, a, scope), Passing(rt, b, scope), Passing(rt, b + a, scope));
  }

  lemma {:induction false} PassNothing(rt: Runtime, scope: Scope, r: Rows)
    ensures Filtered(r, Passing(rt, [], scope)) == r
  {
    if r.Ok? {
      forall x | x in r.value ensures Passing(rt, [], scope)(x) {
        NothingHolds(rt, scope, x);
      }
      WhereAll(r.value, Passing(rt, [], scope));
    }
  }

  // ---------------------------------------------------------------- the claim

  ghost predicate Pushed(rt: Runtime, db: Database, p: Plan, pending: seq<Expr>, q: Plan) {
    && LowerPlan(rt, p).Ok? && LowerPlan(rt, q).Ok? && LowerPlan(rt, q).value.scope == LowerPlan(rt, p).value.scope
    && Stream(rt, db, LowerPlan(rt, q).value.plan)
       == Filtered(Stream(rt, db, LowerPlan(rt, p).value.plan), Passing(rt, pending, LowerPlan(rt, p).value.scope))
  }

  ghost predicate RowsTyped(r: Rows, scope: Scope) {
    r.Ok? ==> forall x {:trigger TypedRow(x, scope)} :: x in r.value ==> TypedRow(x, scope)
  }

  lemma {:induction false} PlanTyped(rt: Runtime, db: Database, p: Plan)
    requires LowerPlan(rt, p).Ok? && Typable(rt, p) && Stocked(db, p)
    ensures RowsTyped(Stream(rt, db, LowerPlan(rt, p).value.plan), LowerPlan(rt, p).value.scope)
  {
    var x := LowerPlan(rt, p).value;
    if Stream(rt, db, x.plan).Ok? {
      PlanConforms(rt, db, p);
      forall r | r in Stream(rt, db, x.plan).value ensures TypedRow(r, x.scope) {
        assert Conforms(r, x.scope);
        Declared(r, x.scope);
      }
    }
  }

  lemma {:induction false} FilteredIsWhere(rt: Runtime, r: Rows, scope: Scope, es: seq<Expr>, on: Option<Phys>)
    requires r.Ok? && RowsTyped(r, scope) && forall x :: TypedRow(x, scope) ==>
             Decides(rt, on, Passing(rt, es, scope), x)
    ensures FilterRows(rt, on, r.value) == Filtered(r, Passing(rt, es, scope))
  {
    forall x | x in r.value ensures Decides(rt, on, Passing(rt, es, scope), x) {
      assert TypedRow(x, scope);
    }
    FilterIsWhere(rt, on, r.value, Passing(rt, es, scope));
  }

  // What is left above a barrier is one more filter.
  lemma {:induction false} Materialized(rt: Runtime, db: Database, p: Plan, q: Plan, pending: seq<Expr>)
    requires Pushed(rt, db, p, [], q) && Pending(rt, pending, LowerPlan(rt, p).value.scope)
    requires RowsTyped(Stream(rt, db, LowerPlan(rt, p).value.plan), LowerPlan(rt, p).value.scope)
    ensures Pushed(rt, db, p, pending, Materialize(q, pending))
  {
    var x, y := LowerPlan(rt, p).value, LowerPlan(rt, q).value;
    PassNothing(rt, x.scope, Stream(rt, db, x.plan));
    if pending != [] {
      CombinedFilters(rt, Stream(rt, db, y.plan), x.scope, pending);
      FilterLowers(rt, db, q, Combine(pending).value);
    }
  }

  lemma {:induction false} FilterLowers(rt: Runtime, db: Database, q: Plan, e: Expr)
    requires LowerPlan(rt, q).Ok? && Bind(rt, e, LowerPlan(rt, q).value.scope).Ok?
    ensures LowerPlan(rt, Filter(q, e)).Ok?
    ensures var y, f := LowerPlan(rt, q).value, LowerPlan(rt, Filter(q, e)).value;
            && f.scope == y.scope
            && Stream(rt, db, f.plan) == match Stream(rt, db, y.plan)
                 case Err(x) => Err(x)
                 case Ok(rows) => FilterRows(rt, Some(Bind(rt, e, y.scope).value), rows)
  {
  }

  // Filtering by the recombined list keeps the rows that pass it.
  lemma {:induction false} CombinedFilters(rt: Runtime, rows: Rows, scope: Scope, pending: seq<Expr>)
    requires pending != [] && Pending(rt, pending, scope) && RowsTyped(rows, scope)
    ensures Bind(rt, Combine(pending).value, scope).Ok?
    ensures rows.Ok? ==> FilterRows(rt, Some(Bind(rt, Combine(pending).value, scope).value), rows.value)
                         == Filtered(rows, Passing(rt, pending, scope))
  {
    NullsTyped(scope);
    CombinedDecides(rt, pending, scope, Nulls(|scope|));
    var e := Bind(rt, Combine(pending).value, scope).value;
    forall r | TypedRow(r, scope) ensures Decides(rt, Some(e), Passing(rt, pending, scope), r) {
      CombinedDecides(rt, pending, scope, r);
    }
    if rows.Ok? {
      FilteredIsWhere(rt, rows, scope, pending, Some(e));
    }
  }

  // ----------------------------------------------------------- filters and scans

  lemma {:induction false} FilterCase(rt: Runtime, db: Database, input: Plan, cond: Expr, pending: seq<Expr>, q: Plan)
    requires Pushed(rt, db, input, pending + SplitConjunction(cond), q)
    requires Pending(rt, SplitConjunction(cond), LowerPlan(rt, input).value.scope)
    requires RowsTyped(Stream(rt, db, LowerPlan(rt, input).value.plan), LowerPlan(rt, input).value.scope)
    ensures Pushed(rt, db, Filter(input, cond), pending, q)
  {
    var x := LowerPlan(rt, input).value;
    SplitMeans(rt, cond, x.scope);
    var e := Bind(rt, cond, x.scope).value;
    var r := Stream(rt, db, x.plan);
    forall row | TypedRow(row, x.scope) ensures Decides(rt, Some(e), Passing(rt, SplitConjunction(cond), x.scope),
      row) {
      SplitDecides(rt, Some(cond), x.scope, row);
    }
    if r.Ok? {
      FilteredIsWhere(rt, r, x.scope, SplitConjunction(cond), Some(e));
      PassBoth(rt, SplitConjunction(cond), pending, x.scope, r.value);
    }
  }

  lemma {:induction false} ScanCase(rt: Runtime, db: Database, source: Source, filter: Option<Expr>, pending: seq<Expr>)
    requires LowerPlan(rt, Scan(source, filter)).Ok? && AllConform(db(source.table), SourceScope(source))
    requires AllSafe(rt, SplitOption(filter), SourceScope(source)) && AllSafe(rt, pending, SourceScope(source))
    ensures Pushed(rt, db, Scan(source, filter), pending, Scan(source, Combine(SplitOption(filter) + pending)))
  {
    var scope, rows := SourceScope(source), db(source.table);
    var es := SplitOption(filter) + pending;
    SafeBoth(rt, SplitOption(filter), pending, scope);
    NullsTyped(scope);
    CombinedDecides(rt, es, scope, Nulls(|scope|));
    var before, after := BindOption(rt, filter, scope).value, BindOption(rt, Combine(es), scope).value;
    forall r | r in rows ensures Decides(rt, before, Passing(rt, SplitOption(filter), scope), r)
      && Decides(rt, after, Passing(rt, es, scope), r) {
      assert Conforms(r, scope);
      Declared(r, scope);
      SplitDecides(rt, filter, scope, r);
      CombinedDecides(rt, es, scope, r);
    }
    FilterIsWhere(rt, before, rows, Passing(rt, SplitOption(filter), scope));
    FilterIsWhere(rt, after, rows, Passing(rt, es, scope));
    PassBoth(rt, SplitOption(filter), pending, scope, rows);
  }

  // ------------------------------------------------------------------- sorting

  lemma {:induction false} KeyRowsMore(rt: Runtime, keys: seq<Phys>, rows: Relation, row: Row)
    requires KeyRows(rt, keys, rows).Ok? && KeyOf(rt, keys, row).Ok?
    ensures KeyRows(rt, keys, rows + [row]) == Ok(KeyRows(rt, keys, rows).value + [KeyOf(rt, keys, row).value])
  {
    assert (rows + [row])[..|rows|] == rows;
  }

  lemma {:induction false} PairedMore(rows: Relation, keys: seq<Row>, row: Row, key: Row)
    requires |rows| == |keys|
    ensures Plans.Paired(rows + [row], keys + [key]) == Plans.Paired(rows, keys) + [Keyed(key, row)]
  {
  }

  // Filtering the rows before their keys are taken, or after, is the same.
  lemma {:induction false} KeysOfKept(rt: Runtime, keys: seq<Phys>, rows: Relation, keep: Row -> bool)
    requires forall r :: r in rows ==> KeyOf(rt, keys, r).Ok?
    ensures KeyRows(rt, keys, rows).Ok? && KeyRows(rt, keys, Where(rows, keep)).Ok?
    ensures Plans.Paired(Where(rows, keep), KeyRows(rt, keys, Where(rows, keep)).value)
         == Kept(Plans.Paired(rows, KeyRows(rt, keys, rows).value), keep)
  {
    if rows != [] {
      var row, front := rows[|rows| - 1], rows[..|rows| - 1];
      assert rows == front + [row];
      KeysOfKept(rt, keys, front, keep);
      KeyRowsMore(rt, keys, front, row);
      var ks, k := KeyRows(rt, keys, front).value, KeyOf(rt, keys, row).value;
      PairedMore(front, ks, row, k);
      KeptMore(Plans.Paired(front, ks), Keyed(k, row), keep);
      if keep(row) {
        KeyRowsMore(rt, keys, Where(front, keep), row);
        PairedMore(Where(front, keep), KeyRows(rt, keys, Where(front, keep)).value, row, k);
      }
    }
  }

  lemma {:induction false} UnpairedMore(s: seq<Keyed>, x: Keyed)
    ensures Unpaired(s + [x]) == Unpaired(s) + [x.row]
  {
  }

  lemma {:induction false} UnpairedKept(s: seq<Keyed>, keep: Row -> bool)
    ensures Unpaired(Kept(s, keep)) == Where(Unpaired(s), keep)
  {
    if s != [] {
      var x, front := s[|s| - 1], s[..|s| - 1];
      assert s == front + [x];
      UnpairedKept(front, keep);
      KeptMore(front, x, keep);
      UnpairedMore(front, x);
      UnpairedMore(Kept(front, keep), x);
      WhereMore(Unpaired(front), x.row, keep);
    }
  }

  lemma {:induction false} PairsComparable(rt: Runtime, keys: seq<Phys>, rows: Relation, scope: Scope)
    requires SortSafe(rt, keys, scope) && RowsTyped(Ok(rows), scope) && KeyRows(rt, keys, rows).Ok?
    ensures AllComparable(Plans.Paired(rows, KeyRows(rt, keys, rows).value), |keys|)
  {
    var ks := KeyRows(rt, keys, rows).value;
    var s := Plans.Paired(rows, ks);
    forall x, y | x in s && y in s ensures Fit(x, y, |keys|) {
      var i :| 0 <= i < |s| && s[i] == x;
      var j :| 0 <= j < |s| && s[j] == y;
      assert rows[i] in rows && rows[j] in rows && TypedRow(rows[i], scope) && TypedRow(rows[j], scope);
      KeyRowAt(rt, keys, rows, i);
      KeyRowAt(rt, keys, rows, j);
      assert SortPair(rt, keys, rows[i], rows[j]);
      CollectedAll(EvalAll(rt, keys, rows[i]));
    }
  }

  lemma {:induction false} SortRowsKept(rt: Runtime, keys: seq<Phys>, orders: seq<KeyOrder>, rows: Relation,
                                        scope: Scope, keep: Row -> bool)
    requires SortSafe(rt, keys, scope) && RowsTyped(Ok(rows), scope) && |orders| == |keys|
    ensures SortRows(rt, keys, orders, Where(rows, keep)) == Filtered(SortRows(rt, keys, orders, rows), keep)
  {
    forall r | r in rows ensures KeyOf(rt, keys, r).Ok? {
      assert TypedRow(r, scope) && SortPair(rt, keys, r, r);
    }
    KeysOfKept(rt, keys, rows, keep);
    WhereIn(rows, keep);
    forall r | r in Where(rows, keep) ensures TypedRow(r, scope) {
      assert r in rows;
    }
    PairsComparable(rt, keys, rows, scope);
    PairsComparable(rt, keys, Where(rows, keep), scope);
    var s := Plans.Paired(rows, KeyRows(rt, keys, rows).value);
    SortKept(s, orders, keep);
    UnpairedKept(StableSort(s, orders), keep);
  }

  lemma {:induction false} SortLowers(rt: Runtime, db: Database, p: Plan)
    requires p.Sort? && LowerPlan(rt, p.input).Ok?
             && BindAll(rt, KeyExprs(p.keys), LowerPlan(rt, p.input).value.scope).Ok?
    ensures LowerPlan(rt, p).Ok? && LowerPlan(rt, p).value.scope == LowerPlan(rt, p.input).value.scope
    ensures var r := Stream(rt, db, LowerPlan(rt, p.input).value.plan);
            var keys := BindAll(rt, KeyExprs(p.keys), LowerPlan(rt, p.input).value.scope).value;
            && LowerPlan(rt, p).value.plan.OrderBy? && LowerPlan(rt, p).value.plan.keys == keys
            && Stream(rt, db, LowerPlan(rt, p).value.plan) ==
              (match r case Err(e) => Err(e) case Ok(rows) => SortRows(rt, keys, Orders(p.keys), rows))
  {
  }

  lemma {:induction false} SortCase(rt: Runtime, db: Database, input: Plan, keys: seq<SortKey>, pending: seq<Expr>,
                                    q: Plan)
    requires Pushed(rt, db, input, pending, q) && LowerPlan(rt, Sort(input, keys)).Ok?
    requires SortSafe(rt, LowerPlan(rt, Sort(input, keys)).value.plan.keys, LowerPlan(rt, input).value.scope)
    requires RowsTyped(Stream(rt, db, LowerPlan(rt, input).value.plan), LowerPlan(rt, input).value.scope)
    ensures Pushed(rt, db, Sort(input, keys), pending, Sort(q, keys))
  {
    var x := LowerPlan(rt, input).value;
    var r := Stream(rt, db, x.plan);
    SortLowers(rt, db, Sort(input, keys));
    SortLowers(rt, db, Sort(q, keys));
    if r.Ok? {
      var ks := BindAll(rt, KeyExprs(keys), x.scope).value;
      SortRowsKept(rt, ks, Orders(keys), r.value, x.scope, Passing(rt, pending, x.scope));
    }
  }

  // ------------------------------------------------------------------- barriers

  // The same node over another input.
  function Over(p: Plan, q: Plan): Plan {
    match p
    case Aggregate(_, groupBy, calls) => Aggregate(q, groupBy, calls)
    case Projection(_, items) => Projection(q, items)
    case Distinct(_) => Distinct(q)
    case Limit(_, count, offset) => Limit(q, count, offset)
    case _ => p
  }

  // Two plans over inputs that lower to one scope and put out the same.
  ghost predicate SameBelow(rt: Runtime, db: Database, p: Plan, q: Plan) {
    && LowerPlan(rt, p).Ok? && LowerPlan(rt, q).Ok? && LowerPlan(rt, q).value.scope == LowerPlan(rt, p).value.scope
    && Stream(rt, db, LowerPlan(rt, q).value.plan) == Stream(rt, db, LowerPlan(rt, p).value.plan)
  }

  lemma {:induction false} SamePushed(rt: Runtime, db: Database, p: Plan, q: Plan)
    ensures SameBelow(rt, db, p, q) <==> Pushed(rt, db, p, [], q)
  {
    if LowerPlan(rt, p).Ok? {
      PassNothing(rt, LowerPlan(rt, p).value.scope, Stream(rt, db, LowerPlan(rt, p).value.plan));
    }
  }

  lemma {:induction false} AggregateOver(rt: Runtime, db: Database, p: Plan, q: Plan)
    requires p.Aggregate? && LowerPlan(rt, p).Ok? && SameBelow(rt, db, p.input, q)
    ensures SameBelow(rt, db, p, Aggregate(q, p.groupBy, p.calls))
  {
  }

  lemma {:induction false} ProjectionOver(rt: Runtime, db: Database, p: Plan, q: Plan)
    requires p.Projection? && LowerPlan(rt, p).Ok? && SameBelow(rt, db, p.input, q)
    ensures SameBelow(rt, db, p, Projection(q, p.items))
  {
    ProjectionLowers(rt, p);
    ProjectionLowers(rt, Projection(q, p.items));
  }

  lemma {:induction false} ProjectionLowers(rt: Runtime, p: Plan)
    requires p.Projection? && LowerPlan(rt, p.input).Ok?
    ensures var i := LowerPlan(rt, p.input).value;
            var es, scope := BindAll(rt, ItemExprs(p.items), i.scope), ItemColumns(p.items, i.scope);
            && (LowerPlan(rt, p).Ok? <==> es.Ok? && scope.Ok?)
            && (LowerPlan(rt, p).Ok? ==> LowerPlan(rt, p).value == Lowered(Project(i.plan, es.value), scope.value))
  {
  }

  lemma {:induction false} DistinctOver(rt: Runtime, db: Database, p: Plan, q: Plan)
    requires p.Distinct? && LowerPlan(rt, p).Ok? && SameBelow(rt, db, p.input, q)
    ensures SameBelow(rt, db, p, Distinct(q))
  {
  }

  lemma {:induction false} LimitOver(rt: Runtime, db: Database, p: Plan, q: Plan)
    requires p.Limit? && LowerPlan(rt, p).Ok? && SameBelow(rt, db, p.input, q)
    ensures SameBelow(rt, db, p, Limit(q, p.count, p.offset))
  {
    LimitLowers(rt, p.input, p.count, p.offset);
    LimitLowers(rt, q, p.count, p.offset);
    LimitStreams(rt, db, LowerPlan(rt, p.input).value.plan, LowerPlan(rt, q).value.plan, p.count, p.offset);
  }

  lemma {:induction false} LimitLowers(rt: Runtime, input: Plan, count: Option<nat>, offset: nat)
    requires LowerPlan(rt, input).Ok?
    ensures var i := LowerPlan(rt, input).value;
            LowerPlan(rt, Limit(input, count, offset)) == Ok(Lowered(Slice(i.plan, count, offset), i.scope))
  {
  }

  lemma {:induction false} LimitStreams(rt: Runtime, db: Database, a: PhysPlan, b: PhysPlan, count: Option<nat>,
                                        offset: nat)
    requires Stream(rt, db, a) == Stream(rt, db, b)
    ensures Stream(rt, db, Slice(a, count, offset)) == Stream(rt, db, Slice(b, count, offset))
  {
  }

  // A node that depends on the rows below it only, over the same rows.
  lemma {:induction false} SameInput(rt: Runtime, db: Database, p: Plan, q: Plan)
    requires p.Aggregate? || p.Projection? || p.Distinct? || p.Limit?
    requires LowerPlan(rt, p).Ok? && Pushed(rt, db, p.input, [], q)
    ensures Pushed(rt, db, p, [], Over(p, q))
  {
    SamePushed(rt, db, p.input, q);
    SamePushed(rt, db, p, Over(p, q));
    if p.Aggregate? {
      AggregateOver(rt, db, p, q);
    } else if p.Projection? {
      ProjectionOver(rt, db, p, q);
    } else if p.Distinct? {
      DistinctOver(rt, db, p, q);
    } else {
      LimitOver(rt, db, p, q);
    }
  }

  // --------------------------------------------------------------------- joins

  lemma {:induction false} NoRowError(rt: Runtime, on: Option<Phys>, l: Row, inner: Relation)
    requires forall r {:trigger Clean(rt, on, l, r)} :: r in inner ==> Clean(rt, on, l, r)
    ensures RowError(rt, on, l, inner).None?
  {
    if inner != [] {
      var n := |inner| - 1;
      forall r | r in inner[..n] ensures Clean(rt, on, l, r) {
        assert r in inner;
      }
      NoRowError(rt, on, l, inner[..n]);
      assert inner[n] in inner && Clean(rt, on, l, inner[n]);
    }
  }

  lemma {:induction false} NoPairError(rt: Runtime, on: Option<Phys>, outer: Relation, inner: Relation)
    requires forall l, r {:trigger Clean(rt, on, l, r)} :: l in outer && r in inner ==> Clean(rt, on, l, r)
    ensures PairError(rt, on, outer, inner).None?
  {
    if outer != [] {
      var n := |outer| - 1;
      forall l, r | l in outer[..n] && r in inner ensures Clean(rt, on, l, r) {
        assert l in outer;
      }
      NoPairError(rt, on, outer[..n], inner);
      assert outer[n] in outer;
      NoRowError(rt, on, outer[n], inner);
    }
  }

  ghost predicate Agree(keep: Row -> bool, keep': Row -> bool, l: Row, r: Row) { keep(l + r) == keep'(l + r) }

  ghost predicate AgreeAll(keep: Row -> bool, keep': Row -> bool, outer: Relation, inner: Relation) {
    forall l, r {:trigger Agree(keep, keep', l, r)} :: l in outer && r in inner ==> Agree(keep, keep', l, r)
  }

  // Two conditions that agree on all pairs make the same join: trade one for the other.
  lemma {:induction false} JoinedSame(kind: JoinType, outer: Relation, inner: Relation, keep: Row -> bool,
                                      keep': Row -> bool, lw: nat, rw: nat)
    requires AgreeAll(keep, keep', outer, inner)
    ensures Joined(kind, outer, inner, keep, lw, rw) == Joined(kind, outer, inner, keep', lw, rw)
  {
    var any: Row -> bool := _ => true;
    var t := Trade(keep, any, any, any, keep', any);
    forall l, r | l in outer && r in inner ensures PairOk(t, l, r) && LeftOk(t, l, r) && RightOk(t, l, r) {
      assert Agree(keep, keep', l, r);
    }
    JoinTraded(kind, t, outer, inner, lw, rw);
    WhereAll(outer, any);
    WhereAll(inner, any);
    WhereAll(Joined(kind, outer, inner, keep, lw, rw), any);
    WhereAll(Joined(kind, outer, inner, keep', lw, rw), any);
  }

  // A condition that decides on all pairs of typed rows makes the join it stands for.
  lemma {:induction false} JoinDecided(rt: Runtime, kind: JoinType, on: Option<Phys>, keep: Row -> bool, l: Scope,
                                       r: Scope, outer: Relation, inner: Relation)
    requires RowsTyped(Ok(outer), l) && RowsTyped(Ok(inner), r)
    requires forall row :: TypedRow(row, JoinScope(kind, l, r)) ==> Decides(rt, on, keep, row)
    ensures JoinRows(rt, kind, on, outer, inner, |l|, |r|) == Ok(Joined(kind, outer, inner, keep, |l|, |r|))
  {
    forall x, y | x in outer && y in inner ensures Clean(rt, on, x, y) && Agree(KeptBy(rt, on), keep, x, y) {
      assert TypedRow(x, l) && TypedRow(y, r);
      JoinTyped(kind, l, r, x, y);
      assert Decides(rt, on, keep, x + y);
    }
    NoPairError(rt, on, outer, inner);
    JoinedSame(kind, outer, inner, KeptBy(rt, on), keep, |l|, |r|);
  }

  lemma {:induction false} WhereTyped(rows: Relation, keep: Row -> bool, scope: Scope)
    requires RowsTyped(Ok(rows), scope)
    ensures RowsTyped(Ok(Where(rows, keep)), scope)
  {
    WhereIn(rows, keep);
    forall r | r in Where(rows, keep) ensures TypedRow(r, scope) {
      assert r in rows;
    }
  }

  // The join before and the join after, with what is left above it.
  lemma {:induction false} JoinCase(rt: Runtime, db: Database, left: Plan, right: Plan, kind: JoinType,
                                    on: Option<Expr>, pending: seq<Expr>, ql: Plan, qr: Plan)
    requires LowerPlan(rt, Join(left, right, kind, on)).Ok? && ScopeOf(left).Some? && ScopeOf(right).Some?
    requires var l, r := ScopeOf(left).value, ScopeOf(right).value;
             && Pending(rt, SplitOption(on), JoinScope(kind, l, r)) && Pending(rt, pending, JoinScope(kind, l, r))
             && Pushed(rt, db, left, Share(kind, pending, on, l, r, ToLeft), ql)
             && Pushed(rt, db, right, Share(kind, pending, on, l, r, ToRight), qr)
    requires RowsTyped(Stream(rt, db, LowerPlan(rt, left).value.plan), LowerPlan(rt, left).value.scope)
    requires RowsTyped(Stream(rt, db, LowerPlan(rt, right).value.plan), LowerPlan(rt, right).value.scope)
    ensures var l, r := ScopeOf(left).value, ScopeOf(right).value;
            var condition := Share(kind, pending, on, l, r, Condition);
            var q := LowerPlan(rt, Join(ql, qr, kind, Combine(condition)));
            && q.Ok? && q.value.scope == JoinScope(kind, l, r) == LowerPlan(rt, Join(left, right, kind, on)).value.scope
            && Filtered(Stream(rt, db, q.value.plan), Passing(rt, Share(kind, pending, on, l, r, Above), q.value.scope))
               == Filtered(Stream(rt, db, LowerPlan(rt, Join(left, right, kind, on)).value.plan),
                 Passing(rt, pending, q.value.scope))
  {
    ScopeLowered(rt, left);
    ScopeLowered(rt, right);
    var l, r := ScopeOf(left).value, ScopeOf(right).value;
    var joined := JoinScope(kind, l, r);
    var condition := Share(kind, pending, on, l, r, Condition);
    SharePending(rt, kind, pending, on, l, r, Condition);
    NullsTyped(joined);
    CombinedDecides(rt, condition, joined, Nulls(|joined|));
    var x, y := Stream(rt, db, LowerPlan(rt, left).value.plan), Stream(rt, db, LowerPlan(rt, right).value.plan);
    if x.Ok? && y.Ok? {
      JoinStreams(rt, kind, on, pending, l, r, x.value, y.value);
    }
  }

  lemma {:induction false} SharePending(rt: Runtime, kind: JoinType, pending: seq<Expr>, on: Option<Expr>, l: Scope,
                                        r: Scope, to: Bucket)
    requires Pending(rt, pending, JoinScope(kind, l, r)) && Pending(rt, SplitOption(on), JoinScope(kind, l, r))
    ensures Pending(rt, Share(kind, pending, on, l, r, to), JoinScope(kind, l, r))
  {
    DealtIn(kind, false, pending, l, r, to);
    DealtIn(kind, true, SplitOption(on), l, r, to);
    PendingPart(rt, pending, Dealt(kind, false, pending, l, r, to), JoinScope(kind, l, r));
    PendingPart(rt, SplitOption(on), Dealt(kind, true, SplitOption(on), l, r, to), JoinScope(kind, l, r));
    PendingBoth(rt, Dealt(kind, false, pending, l, r, to), Dealt(kind, true, SplitOption(on), l, r, to),
      JoinScope(kind, l, r));
  }

  lemma {:induction false} JoinStreams(rt: Runtime, kind: JoinType, on: Option<Expr>, pending: seq<Expr>, l: Scope,
                                       r: Scope, outer: Relation, inner: Relation)
    requires Pending(rt, SplitOption(on), JoinScope(kind, l, r)) && Pending(rt, pending, JoinScope(kind, l, r))
    requires RowsTyped(Ok(outer), l) && RowsTyped(Ok(inner), r)
    ensures var joined := JoinScope(kind, l, r);
            var before := BindOption(rt, on, joined);
            var after := BindOption(rt, Combine(Share(kind, pending, on, l, r, Condition)), joined);
            && before.Ok? && after.Ok?
            && Filtered(JoinRows(rt, kind, after.value,
              Where(outer, Passing(rt, Share(kind, pending, on, l, r, ToLeft), l)),
                                 Where(inner, Passing(rt, Share(kind, pending, on, l, r, ToRight), r)), |l|, |r|),
                        Passing(rt, Share(kind, pending, on, l, r, Above), joined))
               == Filtered(JoinRows(rt, kind, before.value, outer, inner, |l|, |r|), Passing(rt, pending, joined))
  {
    var joined := JoinScope(kind, l, r);
    var t := TradeOf(rt, kind, pending, on, l, r);
    var condition := Share(kind, pending, on, l, r, Condition);
    SharePending(rt, kind, pending, on, l, r, Condition);
    NullsTyped(joined);
    SplitDecides(rt, on, joined, Nulls(|joined|));
    CombinedDecides(rt, condition, joined, Nulls(|joined|));
    var before, after := BindOption(rt, on, joined).value, BindOption(rt, Combine(condition), joined).value;
    forall row | TypedRow(row, joined) ensures Decides(rt, before, t.on, row) && Decides(rt, after, t.cond, row) {
      SplitDecides(rt, on, joined, row);
      CombinedDecides(rt, condition, joined, row);
    }
    JoinDecided(rt, kind, before, t.on, l, r, outer, inner);
    WhereTyped(outer, t.toLeft, l);
    WhereTyped(inner, t.toRight, r);
    JoinDecided(rt, kind, after, t.cond, l, r, Where(outer, t.toLeft), Where(inner, t.toRight));
    forall x | x in outer ensures |x| == |l| {
      assert TypedRow(x, l);
    }
    forall y | y in inner ensures |y| == |r| {
      assert TypedRow(y, r);
    }
    TradeFair(rt, kind, pending, on, l, r, outer, inner);
    JoinTraded(kind, t, outer, inner, |l|, |r|);
  }

  lemma {:induction false} JoinedTyped(kind: JoinType, outer: Relation, inner: Relation, keep: Row -> bool, l: Scope,
                                       r: Scope)
    requires RowsTyped(Ok(outer), l) && RowsTyped(Ok(inner), r)
    ensures RowsTyped(Ok(Joined(kind, outer, inner, keep, |l|, |r|)), JoinScope(kind, l, r))
  {
    var joined := JoinScope(kind, l, r);
    var ok := (x: Row) => TypedRow(x, joined);
    NullsTyped(l);
    NullsTyped(r);
    forall x, y | x in outer && y in inner ensures ok(x + y) {
      assert TypedRow(x, l) && TypedRow(y, r);
      JoinTyped(kind, l, r, x, y);
    }
    forall x | x in outer ensures ok(x + Nulls(|r|)) {
      assert TypedRow(x, l);
      JoinTyped(kind, l, r, x, Nulls(|r|));
    }
    forall y | y in inner ensures ok(Nulls(|l|) + y) {
      assert TypedRow(y, r);
      JoinTyped(kind, l, r, Nulls(|l|), y);
    }
    LeftPartAll(outer, inner, keep, if PreservesLeft(kind) then Some(|r|) else None, ok);
    UnmatchedAll(outer, inner, keep, |l|, ok);
    forall x | x in Joined(kind, outer, inner, keep, |l|, |r|) ensures TypedRow(x, joined) {
      assert ok(x);
    }
  }

  // A join over sides whose rows are typed puts out typed rows.
  lemma {:induction false} JoinStreamTyped(rt: Runtime, db: Database, p: Plan)
    requires p.Join? && LowerPlan(rt, p).Ok?
    requires RowsTyped(Stream(rt, db, LowerPlan(rt, p.left).value.plan), LowerPlan(rt, p.left).value.scope)
    requires RowsTyped(Stream(rt, db, LowerPlan(rt, p.right).value.plan), LowerPlan(rt, p.right).value.scope)
    ensures RowsTyped(Stream(rt, db, LowerPlan(rt, p).value.plan), LowerPlan(rt, p).value.scope)
  {
    var x := LowerPlan(rt, p).value;
    var l, r := LowerPlan(rt, p.left).value, LowerPlan(rt, p.right).value;
    if Stream(rt, db, x.plan).Ok? {
      JoinedTyped(p.kind, Stream(rt, db, l.plan).value, Stream(rt, db, r.plan).value, KeptBy(rt, x.plan.on), l.scope,
        r.scope);
    }
  }

  lemma {:induction false} PushedTyped(rt: Runtime, db: Database, p: Plan, pending: seq<Expr>, q: Plan)
    requires Pushed(rt, db, p, pending, q)
             && RowsTyped(Stream(rt, db, LowerPlan(rt, p).value.plan), LowerPlan(rt, p).value.scope)
    ensures RowsTyped(Stream(rt, db, LowerPlan(rt, q).value.plan), LowerPlan(rt, q).value.scope)
  {
    var r := Stream(rt, db, LowerPlan(rt, p).value.plan);
    if r.Ok? {
      WhereTyped(r.value, Passing(rt, pending, LowerPlan(rt, p).value.scope), LowerPlan(rt, p).value.scope);
    }
  }

  lemma {:induction false} Unchanged(rt: Runtime, db: Database, p: Plan)
    requires LowerPlan(rt, p).Ok?
    ensures Pushed(rt, db, p, [], p)
  {
    PassNothing(rt, LowerPlan(rt, p).value.scope, Stream(rt, db, LowerPlan(rt, p).value.plan));
  }

  lemma {:induction false} JoinPushed(rt: Runtime, db: Database, p: Plan, pending: seq<Expr>, ql: Plan, qr: Plan)
    requires p.Join? && LowerPlan(rt, p).Ok? && Sound(rt, p) && Pending(rt, pending, LowerPlan(rt, p).value.scope)
    requires var l, r := ScopeOf(p.left).value, ScopeOf(p.right).value;
             && Pushed(rt, db, p.left, Share(p.kind, pending, p.on, l, r, ToLeft), ql)
             && Pushed(rt, db, p.right, Share(p.kind, pending, p.on, l, r, ToRight), qr)
    requires RowsTyped(Stream(rt, db, LowerPlan(rt, p.left).value.plan), LowerPlan(rt, p.left).value.scope)
    requires RowsTyped(Stream(rt, db, LowerPlan(rt, p.right).value.plan), LowerPlan(rt, p.right).value.scope)
    ensures var l, r := ScopeOf(p.left).value, ScopeOf(p.right).value;
            Pushed(rt, db, p, pending, Materialize(Join(ql, qr, p.kind,
              Combine(Share(p.kind, pending, p.on, l, r, Condition))),
                                                   Share(p.kind, pending, p.on, l, r, Above)))
  {
    ScopeLowered(rt, p.left);
    ScopeLowered(rt, p.right);
    var l, r := ScopeOf(p.left).value, ScopeOf(p.right).value;
    JoinCase(rt, db, p.left, p.right, p.kind, p.on, pending, ql, qr);
    var q := Join(ql, qr, p.kind, Combine(Share(p.kind, pending, p.on, l, r, Condition)));
    PushedTyped(rt, db, p.left, Share(p.kind, pending, p.on, l, r, ToLeft), ql);
    PushedTyped(rt, db, p.right, Share(p.kind, pending, p.on, l, r, ToRight), qr);
    JoinStreamTyped(rt, db, q);
    SharePending(rt, p.kind, pending, p.on, l, r, Above);
    Unchanged(rt, db, q);
    Materialized(rt, db, q, q, Share(p.kind, pending, p.on, l, r, Above));
  }

  // ------------------------------------------------------------------ whole plans

  lemma {:induction false} SidePending(rt: Runtime, kind: JoinType, pending: seq<Expr>, on: Option<Expr>, l: Scope,
                                       r: Scope)
    requires Pending(rt, pending, JoinScope(kind, l, r)) && Pending(rt, SplitOption(on), JoinScope(kind, l, r))
    ensures Pending(rt, Share(kind, pending, on, l, r, ToLeft), l)
            && Pending(rt, Share(kind, pending, on, l, r, ToRight), r)
  {
    DealtLeft(rt, kind, false, pending, l, r);
    DealtLeft(rt, kind, true, SplitOption(on), l, r);
    LeftPending(rt, kind, Dealt(kind, false, pending, l, r, ToLeft), l, r);
    LeftPending(rt, kind, Dealt(kind, true, SplitOption(on), l, r, ToLeft), l, r);
    PendingBoth(rt, Dealt(kind, false, pending, l, r, ToLeft), Dealt(kind, true, SplitOption(on), l, r, ToLeft), l);
    RightPending(rt, kind, Dealt(kind, false, pending, l, r, ToRight), l, r);
    RightPending(rt, kind, Dealt(kind, true, SplitOption(on), l, r, ToRight), l, r);
    PendingBoth(rt, Dealt(kind, false, pending, l, r, ToRight), Dealt(kind, true, SplitOption(on), l, r, ToRight), r);
  }

  // What the theorem asks of a plan and what is pushed into it.
  ghost predicate Ready(rt: Runtime, db: Database, p: Plan, pending: seq<Expr>) {
    && LowerPlan(rt, p).Ok? && Sound(rt, p) && Typable(rt, p) && Stocked(db, p)
    && Pending(rt, pending, LowerPlan(rt, p).value.scope) && (pending != [] ==> Open(p))
  }

  // What a join's sides are given is ready to go into them.
  lemma {:induction false} SidesReady(rt: Runtime, db: Database, p: Plan, pending: seq<Expr>)
    requires p.Join? && Ready(rt, db, p, pending)
    ensures ScopeOf(p.left).Some? && ScopeOf(p.right).Some?
    ensures Ready(rt, db, p.left, Share(p.kind, pending, p.on, ScopeOf(p.left).value, ScopeOf(p.right).value, ToLeft))
    ensures Ready(rt, db, p.right, Share(p.kind, pending, p.on, ScopeOf(p.left).value, ScopeOf(p.right).value, ToRight))
  {
    ScopeLowered(rt, p.left);
    ScopeLowered(rt, p.right);
    ScopedOpen(p.left);
    ScopedOpen(p.right);
    SidePending(rt, p.kind, pending, p.on, ScopeOf(p.left).value, ScopeOf(p.right).value);
  }

  lemma {:induction false} InputReady(rt: Runtime, db: Database, p: Plan, pending: seq<Expr>)
    requires p.Filter? && Ready(rt, db, p, pending)
    ensures Ready(rt, db, p.input, pending + SplitConjunction(p.cond))
  {
    PendingBoth(rt, pending, SplitConjunction(p.cond), LowerPlan(rt, p.input).value.scope);
  }

  // Pushing predicates into a plan is filtering what it puts out.
  lemma {:induction false} PushMeans(rt: Runtime, db: Database, p: Plan, pending: seq<Expr>)
    requires Ready(rt, db, p, pending)
    ensures Pushed(rt, db, p, pending, PushPredicates(p, pending))
    decreases p, 1
  {
    match p
    case Scan(source, filter) => ScanCase(rt, db, source, filter, pending);
    case Filter(_, _) => FilterMeans(rt, db, p, pending);
    case Sort(_, _) => SortMeans(rt, db, p, pending);
    case Join(_, _, _, _) => JoinMeans(rt, db, p, pending);
    case _ => BarrierMeans(rt, db, p, pending);
  }

  lemma {:induction false} FilterMeans(rt: Runtime, db: Database, p: Plan, pending: seq<Expr>)
    requires p.Filter? && Ready(rt, db, p, pending)
    ensures Pushed(rt, db, p, pending, PushPredicates(p, pending))
    decreases p, 0
  {
    InputReady(rt, db, p, pending);
    PushMeans(rt, db, p.input, pending + SplitConjunction(p.cond));
    PlanTyped(rt, db, p.input);
    FilterCase(rt, db, p.input, p.cond, pending, PushPredicates(p.input, pending + SplitConjunction(p.cond)));
  }

  lemma {:induction false} SortMeans(rt: Runtime, db: Database, p: Plan, pending: seq<Expr>)
    requires p.Sort? && Ready(rt, db, p, pending)
    ensures Pushed(rt, db, p, pending, PushPredicates(p, pending))
    decreases p, 0
  {
    PushMeans(rt, db, p.input, pending);
    PlanTyped(rt, db, p.input);
    SortCase(rt, db, p.input, p.keys, pending, PushPredicates(p.input, pending));
  }

  lemma {:induction false} JoinMeans(rt: Runtime, db: Database, p: Plan, pending: seq<Expr>)
    requires p.Join? && Ready(rt, db, p, pending)
    ensures Pushed(rt, db, p, pending, PushPredicates(p, pending))
    decreases p, 0
  {
    SidesReady(rt, db, p, pending);
    var left, right, kind, on := p.left, p.right, p.kind, p.on;
    var l, r := ScopeOf(left).value, ScopeOf(right).value;
    PushMeans(rt, db, left, Share(kind, pending, on, l, r, ToLeft));
    PushMeans(rt, db, right, Share(kind, pending, on, l, r, ToRight));
    PlanTyped(rt, db, left);
    PlanTyped(rt, db, right);
    JoinPushed(rt, db, p, pending, PushPredicates(left, Share(kind, pending, on, l, r, ToLeft)),
               PushPredicates(right, Share(kind, pending, on, l, r, ToRight)));
  }

  lemma {:induction false} BarrierMeans(rt: Runtime, db: Database, p: Plan, pending: seq<Expr>)
    requires (p.Aggregate? || p.Projection? || p.Distinct? || p.Limit?) && Ready(rt, db, p, pending)
    ensures Pushed(rt, db, p, pending, PushPredicates(p, pending))
    decreases p, 0
  {
    var q := PushPredicates(p.input, []);
    PushMeans(rt, db, p.input, []);
    SameInput(rt, db, p, q);
    PlanTyped(rt, db, p);
    Materialized(rt, db, p, Over(p, q), pending);
  }

  // The optimised plan lowers to the same scope and puts out exactly the same sequence of rows,
  // or fails with the same error.
  lemma {:induction false} OptimizeMeans(rt: Runtime, db: Database, p: Plan)
    requires LowerPlan(rt, p).Ok? && Sound(rt, p) && Typable(rt, p) && Stocked(db, p)
    ensures LowerPlan(rt, Optimize(p)).Ok? && LowerPlan(rt, Optimize(p)).value.scope == LowerPlan(rt, p).value.scope
    ensures Stream(rt, db, LowerPlan(rt, Optimize(p)).value.plan) == Stream(rt, db, LowerPlan(rt, p).value.plan)
  {
    PushMeans(rt, db, p, []);
    PassNothing(rt, LowerPlan(rt, p).value.scope, Stream(rt, db, LowerPlan(rt, p).value.plan));
  }
}
