// Choosing an index for a scan, and what the scan falls back to when no index can be read.
module AccessPath {
  import opened Wrappers
  import opened Values
  import opened Ordering
  import opened Exprs
  import opened Scalars
  import opened Evaluation
  import opened Scopes
  import opened Joins
  import opened JoinFilters
  import opened Plans
  import opened Conjuncts
  import opened Sides
  import opened Optimizer

  datatype IndexInfo = IndexInfo(name: string, columns: seq<string>, unique: bool)

  // ------------------------------------------------------------- the decision

  datatype Probe = Probe(column: nat, key: Value)

  // `column = literal`, either way round, with a literal that is not null and can take the
  // column's type.
  function IndexEquality(rt: Runtime, e: Expr, scope: Scope): (r: Option<Probe>)
    ensures r.Some? ==> r.value.column < |scope|
  {
    if !IsBinary(e, Eq) || AlignedWith(e.args).None? then None
    else
      var lit := if e.args[0].Literal? then e.args[0] else e.args[1];
      if !lit.Literal? || lit.value == Null then None
      else match Resolve(scope, AlignedWith(e.args).value)
        case Err(_) => None
        case Ok(i) => (match Coerce(rt, lit.value, scope[i].ty) case Err(_) => None case Ok(key) => Some(Probe(i, key)))
  }

  // An index on that one column; the last one, but a unique one before any other.
  function PickIndex(indexes: seq<IndexInfo>, column: string): Option<IndexInfo> {
    if indexes == [] then None
    else
      var n := |indexes| - 1;
      var before := PickIndex(indexes[..n], column);
      if indexes[n].columns != [column] then before
      else if before.Some? && before.value.unique && !indexes[n].unique then before
      else Some(indexes[n])
  }

  datatype Choice = Choice(position: nat, index: IndexInfo, probe: Probe)

  function ChoiceAt(rt: Runtime, e: Expr, i: nat, scope: Scope, indexes: seq<IndexInfo>): Option<Choice> {
    match IndexEquality(rt, e, scope)
    case None => None
    case Some(probe) =>
      match PickIndex(indexes, scope[probe.column].name)
      case None => None
      case Some(index) => Some(Choice(i, index, probe))
  }

  // The first conjunct an index can answer.
  method Choose(rt: Runtime, conjuncts: seq<Expr>, scope: Scope, indexes: seq<IndexInfo>) returns (r: Option<Choice>)
    ensures r.None? ==> forall i :: 0 <= i < |conjuncts| ==> ChoiceAt(rt, conjuncts[i], i, scope, indexes).None?
    ensures r.Some? ==> r.value.position < |conjuncts|
                        && ChoiceAt(rt, conjuncts[r.value.position], r.value.position, scope, indexes) == r
                        && forall i :: 0 <= i < r.value.position ==> ChoiceAt(rt, conjuncts[i], i, scope, indexes).None?
  {
    for i := 0 to |conjuncts|
      invariant forall j :: 0 <= j < i ==> ChoiceAt(rt, conjuncts[j], j, scope, indexes).None?
    {
      r := ChoiceAt(rt, conjuncts[i], i, scope, indexes);
      if r.Some? {
        return;
      }
    }
    return None;
  }

  function Without(es: seq<Expr>, i: nat): seq<Expr>
    requires i < |es|
  {
    es[..i] + es[i + 1..]
  }

  // ------------------------------------------------------------------ scanning

  // With no provider the probe becomes a filter of its own, before the residual.
  function IndexScan(rt: Runtime, probe: Probe, residual: Option<Phys>, rows: Relation): Rows {
    match FilterRows(rt, Some(Two(Eq, Var(probe.column), Literal(probe.key))), rows)
    case Err(e) => Err(e)
    case Ok(candidates) => FilterRows(rt, residual, candidates)
  }

  lemma {:induction false} EqualityFlips(a: Value, b: Value)
    requires Truthy(Comparison(Eq, a, b))
    ensures Comparison(Eq, b, a) == Comparison(Eq, a, b)
  {
    if a != Null && b != Null {
      CompareFlips(a, b);
    }
  }

  // The probe keeps the rows the conjunct keeps.
  lemma {:induction false} ProbeDecides(rt: Runtime, e: Expr, scope: Scope, probe: Probe, row: Row)
    requires IndexEquality(rt, e, scope) == Some(probe) && Safe(rt, e, scope) && TypedRow(row, scope)
    ensures Decides(rt, Some(Two(Eq, Var(probe.column), Literal(probe.key))), Passing(rt, [e], scope), row)
  {
    ProbeBinds(rt, e, scope, probe);
    var p := Bind(rt, e, scope).value;
    assert Answers3(rt, p, row);
    EvalPair(rt, Binary(Eq), Var(probe.column), Literal(probe.key), row);
    EvalPair(rt, Binary(Eq), Literal(probe.key), Var(probe.column), row);
    if p == Two(Eq, Literal(probe.key), Var(probe.column)) {
      EqualityFlips(probe.key, row[probe.column]);
    }
    HoldOne(rt, e, scope, row);
  }

  lemma {:induction false} ProbeBinds(rt: Runtime, e: Expr, scope: Scope, probe: Probe)
    requires IndexEquality(rt, e, scope) == Some(probe) && Bind(rt, e, scope).Ok?
    ensures var p := Bind(rt, e, scope).value;
            p == Two(Eq, Var(probe.column), Literal(probe.key)) || p == Two(Eq, Literal(probe.key), Var(probe.column))
  {
    var ps := BindAll(rt, e.args, scope).value;
    assert Bind(rt, e.args[0], scope) == Ok(ps[0]) && Bind(rt, e.args[1], scope) == Ok(ps[1]);
    assert Aligned(rt, ps, scope[probe.column].ty).Ok?;
  }

  lemma {:induction false} WithoutHolds(rt: Runtime, es: seq<Expr>, i: nat, scope: Scope, row: Row)
    requires i < |es|
    ensures AllHold(rt, es, scope, row) <==> AllHold(rt, [es[i]], scope, row) && AllHold(rt, Without(es, i), scope, row)
  {
    assert es == es[..i] + [es[i]] + es[i + 1..];
    HoldBoth(rt, es[..i] + [es[i]], es[i + 1..], scope, row);
    HoldBoth(rt, es[..i], [es[i]], scope, row);
    HoldBoth(rt, es[..i], es[i + 1..], scope, row);
  }

  // A scan through an index that cannot be read keeps the rows of the full filter, in order.
  lemma {:induction false} FallbackIsFilter(rt: Runtime, filter: Expr, scope: Scope, rows: Relation, i: nat,
                                            probe: Probe)
    requires AllSafe(rt, SplitConjunction(filter), scope) && RowsTyped(Ok(rows), scope)
    requires i < |SplitConjunction(filter)| && IndexEquality(rt, SplitConjunction(filter)[i], scope) == Some(probe)
    ensures var residual := BindOption(rt, Combine(Without(SplitConjunction(filter), i)), scope);
            && Bind(rt, filter, scope).Ok? && residual.Ok?
            && IndexScan(rt, probe, residual.value, rows) == FilterRows(rt, Some(Bind(rt, filter, scope).value), rows)
  {
    var es := SplitConjunction(filter);
    var rest := Without(es, i);
    var eq := Some(Two(Eq, Var(probe.column), Literal(probe.key)));
    RestSafe(rt, es, i, scope);
    SplitMeans(rt, filter, scope);
    NullsTyped(scope);
    CombinedDecides(rt, rest, scope, Nulls(|scope|));
    var e, residual := Some(Bind(rt, filter, scope).value), BindOption(rt, Combine(rest), scope).value;
    forall row | TypedRow(row, scope)
      ensures Decides(rt, eq, Passing(rt, [es[i]], scope), row) && Decides(rt, residual, Passing(rt, rest, scope), row)
              && Decides(rt, e, Passing(rt, es, scope), row)
    {
      ProbeDecides(rt, es[i], scope, probe, row);
      CombinedDecides(rt, rest, scope, row);
      SplitDecides(rt, Some(filter), scope, row);
    }
    FilteredIsWhere(rt, Ok(rows), scope, [es[i]], eq);
    FilteredIsWhere(rt, Ok(rows), scope, es, e);
    WhereTyped(rows, Passing(rt, [es[i]], scope), scope);
    FilteredIsWhere(rt, Ok(Where(rows, Passing(rt, [es[i]], scope))), scope, rest, residual);
    forall r | r in rows ensures Passing(rt, es, scope)(r) ==
      (Passing(rt, [es[i]], scope)(r) && Passing(rt, rest, scope)(r)) {
      WithoutHolds(rt, es, i, scope, r);
    }
    WhereTwice(rows, Passing(rt, [es[i]], scope), Passing(rt, rest, scope), Passing(rt, es, scope));
  }

  lemma {:induction false} RestSafe(rt: Runtime, es: seq<Expr>, i: nat, scope: Scope)
    requires AllSafe(rt, es, scope) && i < |es|
    ensures Safe(rt, es[i], scope) && AllSafe(rt, Without(es, i), scope)
  {
    assert es[i] in es;
    forall e | e in Without(es, i) ensures Safe(rt, e, scope) {
      assert e in es;
    }
  }
}
