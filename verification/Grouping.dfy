// Select and HAVING expressions rewritten over the output of an aggregate.
module Grouping {
  import opened Wrappers
  import opened Values
  import opened Exprs
  import opened Scalars
  import opened Evaluation
  import opened Balanced
  import opened Scopes
  import opened Relocation
  import opened Joins
  import opened Aggregates

  // ------------------------------------------------------------- the rewrite

  function PositionIn(keys: seq<Expr>, e: Expr): (r: Option<nat>)
    ensures r.Some? <==> e in keys
    ensures r.Some? ==> r.value < |keys| && keys[r.value] == e
  {
    if keys == [] then None
    else if keys[0] == e then Some(0)
    else match PositionIn(keys[1..], e) case None => None case Some(i) => Some(i + 1)
  }

  // A subtree equal to a group key becomes that key's slot. The operand of IN is not looked into.
  function Substitute(e: Expr, keys: seq<Expr>): Expr
    decreases e
  {
    match PositionIn(keys, e)
    case Some(i) => Var(Slot(i))
    case None =>
      match e
      case Node(op, args) => if op.In? then e else Node(op, SubstituteAll(args, keys))
      case _ => e
  }

  function SubstituteAll(es: seq<Expr>, keys: seq<Expr>): (r: seq<Expr>)
    ensures |r| == |es| && forall i :: 0 <= i < |es| ==> r[i] == Substitute(es[i], keys)
    decreases es
  {
    if es == [] then [] else SubstituteAll(es[..|es| - 1], keys) + [Substitute(es[|es| - 1], keys)]
  }

  // No column is read outside the keys and the aggregates.
  predicate Accepted(e: Expr, keys: seq<Expr>) { References(Substitute(e, keys)) == [] }

  // ------------------------------------------- what the expression meant before

  // Columns are those of a row of the group; slots from `offset` on are its aggregates, which
  // stand after the row.
  function BindOver(rt: Runtime, e: Expr, scope: Scope, offset: nat, aggs: nat): Result<Phys, PlanError>
    decreases e
  {
    match e
    case Var(Column(ref)) => (match Resolve(scope, ref) case Ok(i) => Ok(Var(i)) case Err(x) => Err(x))
    case Var(Slot(p)) => if offset <= p < offset + aggs then Ok(Var(|scope| + (p - offset))) else Err(NoSuchPosition)
    case Literal(v) => Ok(Literal(v))
    case Node(op, args) =>
      (match BindAllOver(rt, args, scope, offset, aggs)
       case Err(x) => Err(x)
       case Ok(ps) => BindNode(rt, op, args, ps, scope))
  }

  function BindAllOver(rt: Runtime, es: seq<Expr>, scope: Scope, offset: nat, aggs: nat): (r: Result<seq<Phys>,
                       PlanError>)
    ensures r.Ok? <==> forall i :: 0 <= i < |es| ==> BindOver(rt, es[i], scope, offset, aggs).Ok?
    ensures r.Ok? ==> |r.value| == |es| && forall i :: 0 <= i < |es| ==>
            BindOver(rt, es[i], scope, offset, aggs) == Ok(r.value[i])
    decreases es
  {
    if es == [] then Ok([])
    else match BindAllOver(rt, es[..|es| - 1], scope, offset, aggs)
      case Err(x) => Err(x)
      case Ok(ps) => (match BindOver(rt, es[|es| - 1], scope, offset,
        aggs) case Err(x) => Err(x) case Ok(p) => Ok(ps + [p]))
  }

  // Without slots it is the ordinary binding.
  lemma {:induction false} OverIsBind(rt: Runtime, e: Expr, scope: Scope, offset: nat, aggs: nat)
    requires NoSlots(e)
    ensures BindOver(rt, e, scope, offset, aggs) == Bind(rt, e, scope)
    decreases e
  {
    if e.Node? {
      OverIsBindAll(rt, e.args, scope, offset, aggs);
    }
  }

  lemma {:induction false} OverIsBindAll(rt: Runtime, es: seq<Expr>, scope: Scope, offset: nat, aggs: nat)
    requires forall i :: 0 <= i < |es| ==> NoSlots(es[i])
    ensures BindAllOver(rt, es, scope, offset, aggs) == BindAll(rt, es, scope)
    decreases es
  {
    if es != [] {
      OverIsBindAll(rt, es[..|es| - 1], scope, offset, aggs);
      OverIsBind(rt, es[|es| - 1], scope, offset, aggs);
    }
  }

  // The row the aggregate puts out, and one row of the group with the aggregates after it.
  datatype Place = Place(scope: Scope, out: Scope, row: Row, key: Row, aggs: Row)

  ghost predicate PlaceOk(rt: Runtime, keys: seq<Expr>, at: Place) {
    && TypedRow(at.row, at.scope) && |at.key| == |keys| && |at.out| == |keys| + |at.aggs|
    && forall i {:trigger KeyHolds(rt, keys[i], at, i)} :: 0 <= i < |keys| ==> KeyHolds(rt, keys[i], at, i)
  }

  ghost predicate KeyHolds(rt: Runtime, key: Expr, at: Place, i: nat) {
    NoSlots(key) && Bind(rt, key, at.scope).Ok? && i < |at.key|
      && Eval(rt, Bind(rt, key, at.scope).value, at.row) == Ok(at.key[i])
  }

  ghost predicate Rewritten(rt: Runtime, e: Expr, e': Expr, keys: seq<Expr>, at: Place) {
    var p, q := BindOver(rt, e, at.scope, |keys|, |at.aggs|), Bind(rt, e', at.out);
    p.Ok? ==> q.Ok? && Eval(rt, q.value, at.key + at.aggs) == Eval(rt, p.value, at.row + at.aggs)
  }

  // A text literal beside a column of these types is parsed; any other is at most widened.
  predicate Reparsed(lit: Value, ty: DataType) { lit.Text? && ty in {UuidType, TimestampType, JsonType} }

  // Read as the column's type or as written, a literal compares alike with the column's values
  // exactly when it is not parsed, or the value is null.
  lemma {:induction false} CoercionMatters(rt: Runtime, op: BinaryOp, k: Value, lit: Value, ty: DataType)
    requires (k == Null || TypeOf(k) == Some(ty)) && Coerce(rt, lit, ty).Ok?
    ensures Comparison(op, k, Coerce(rt, lit, ty).value) == Comparison(op, k, lit) <==> k == Null || !Reparsed(lit, ty)
    ensures Comparison(op, Coerce(rt, lit, ty).value, k) == Comparison(op, lit, k) <==> k == Null || !Reparsed(lit, ty)
  {
  }

  // Outside the keys, no text literal stands beside a column it would be parsed for.
  predicate Uncoerced(e: Expr, keys: seq<Expr>, scope: Scope)
    decreases e
  {
    e !in keys && e.Node? && !e.op.In? ==>
      && (Compares(e.op) && AlignedWith(e.args).Some? ==> Unparsed(e.args, scope))
      && forall i :: 0 <= i < |e.args| ==> Uncoerced(e.args[i], keys, scope)
  }

  function LiteralOf(args: seq<Expr>): Value
    requires AlignedWith(args).Some?
  {
    if args[0].Literal? then args[0].value else args[1].value
  }

  predicate Unparsed(args: seq<Expr>, scope: Scope)
    requires AlignedWith(args).Some?
  {
    var r := Resolve(scope, AlignedWith(args).value);
    r.Ok? ==> !Reparsed(LiteralOf(args), scope[r.value].ty)
  }

  // A key, read on the wider row.
  lemma {:induction false} KeyReadsBack(rt: Runtime, keys: seq<Expr>, at: Place, i: nat)
    requires PlaceOk(rt, keys, at) && i < |keys|
    ensures Rewritten(rt, keys[i], Var(Slot(i)), keys, at)
  {
    assert KeyHolds(rt, keys[i], at, i);
    OverIsBind(rt, keys[i], at.scope, |keys|, |at.aggs|);
    forall ref | ref in References(keys[i]) ensures Agrees(ref, at.scope, at.scope, at.row, at.row + at.aggs) {
      BoundResolves(rt, keys[i], at.scope, ref);
    }
    Relocated(rt, keys[i], at.scope, at.scope, at.row, at.row + at.aggs);
  }

  lemma {:induction false} BoundResolves(rt: Runtime, e: Expr, scope: Scope, ref: ColumnRef)
    requires Bind(rt, e, scope).Ok? && ref in References(e)
    ensures Resolve(scope, ref).Ok?
    decreases e
  {
    if e.Node? {
      var i := FoundIn(e.args, ref);
      assert Bind(rt, e.args[i], scope).Ok?;
      BoundResolves(rt, e.args[i], scope, ref);
    }
  }

  lemma {:induction false} FoundIn(es: seq<Expr>, ref: ColumnRef) returns (i: nat)
    requires ref in ReferencesOf(es)
    ensures i < |es| && ref in References(es[i])
  {
    var n := |es| - 1;
    if ref in References(es[n]) {
      i := n;
    } else {
      i := FoundIn(es[..n], ref);
    }
  }

  lemma {:induction false} NoneBelow(es: seq<Expr>, i: nat)
    requires ReferencesOf(es) == [] && i < |es|
    ensures References(es[i]) == []
  {
    var n := |es| - 1;
    assert ReferencesOf(es) == ReferencesOf(es[..n]) + References(es[n]);
    if i < n {
      NoneBelow(es[..n], i);
    }
  }

  // ------------------------------------------------------------ it still means it

  ghost predicate AllRewritten(rt: Runtime, es: seq<Expr>, es': seq<Expr>, keys: seq<Expr>, at: Place) {
    |es| == |es'| && forall i {:trigger Rewritten(rt, es[i], es'[i], keys, at)} :: 0 <= i < |es| ==>
      Rewritten(rt, es[i], es'[i], keys, at)
  }

  // Operands that mean the same, bound and evaluated on both rows.
  lemma {:induction false} OperandsAlike(rt: Runtime, args: seq<Expr>, args': seq<Expr>, keys: seq<Expr>, at: Place)
    requires AllRewritten(rt, args, args', keys, at) && BindAllOver(rt, args, at.scope, |keys|, |at.aggs|).Ok?
    ensures BindAll(rt, args', at.out).Ok?
    ensures EvalAll(rt, BindAll(rt, args', at.out).value, at.key + at.aggs)
         == EvalAll(rt, BindAllOver(rt, args, at.scope, |keys|, |at.aggs|).value, at.row + at.aggs)
  {
    var ps := BindAllOver(rt, args, at.scope, |keys|, |at.aggs|).value;
    forall i | 0 <= i < |args|
      ensures Bind(rt, args'[i], at.out).Ok?
      ensures Eval(rt, Bind(rt, args'[i], at.out).value, at.key + at.aggs) == Eval(rt, ps[i], at.row + at.aggs)
    {
      assert Rewritten(rt, args[i], args'[i], keys, at);
    }
  }

  // A comparison of a column with a literal, bound: the literal is read as the column's type.
  lemma {:induction false} AlignedBinds(rt: Runtime, op: Op, args: seq<Expr>, keys: seq<Expr>, at: Place)
    returns (i: nat, c: Value)
    requires Compares(op) && AlignedWith(args).Some? && BindOver(rt, Node(op, args), at.scope, |keys|, |at.aggs|).Ok?
    ensures Resolve(at.scope, AlignedWith(args).value) == Ok(i) && Coerce(rt, LiteralOf(args), at.scope[i].ty) == Ok(c)
    ensures var ps := BindAllOver(rt, args, at.scope, |keys|, |at.aggs|);
            && ps.Ok? && ps.value == (if args[0].Literal? then [Literal(LiteralOf(args)), Var(i)]
              else [Var(i), Literal(LiteralOf(args))])
    ensures BindOver(rt, Node(op, args), at.scope, |keys|, |at.aggs|)
         == Ok(Node(op, if args[0].Literal? then [Literal(c), Var(i)] else [Var(i), Literal(c)]))
  {
    var ps := BindAllOver(rt, args, at.scope, |keys|, |at.aggs|).value;
    assert BindOver(rt, args[0], at.scope, |keys|, |at.aggs|) == Ok(ps[0])
           && BindOver(rt, args[1], at.scope, |keys|, |at.aggs|) == Ok(ps[1]);
    i := Resolve(at.scope, AlignedWith(args).value).value;
    c := Coerce(rt, LiteralOf(args), at.scope[i].ty).value;
    assert ps == [ps[0], ps[1]];
  }

  lemma {:induction false} ComparisonEval(rt: Runtime, op: BinaryOp, a: Phys, b: Phys, row: Row, x: Value, y: Value)
    requires IsComparison(op) && Eval(rt, a, row) == Ok(x) && Eval(rt, b, row) == Ok(y)
    ensures Eval(rt, Node(Binary(op), [a, b]), row) == Comparison(op, x, y)
  {
    EvalPair(rt, Binary(op), a, b, row);
  }

  // Once no column is left, the rewritten comparison reads the literal as written.
  lemma {:induction false} ReadsAsWritten(rt: Runtime, op: Op, args: seq<Expr>, args': seq<Expr>, keys: seq<Expr>,
                                          at: Place)
    requires AllRewritten(rt, args, args', keys, at) && ReferencesOf(args') == []
    requires Compares(op) && BindAllOver(rt, args, at.scope, |keys|, |at.aggs|).Ok?
    ensures Bind(rt, Node(op, args'), at.out).Ok?
    ensures Eval(rt, Bind(rt, Node(op, args'), at.out).value, at.key + at.aggs)
         == Eval(rt, Node(op, BindAllOver(rt, args, at.scope, |keys|, |at.aggs|).value), at.row + at.aggs)
  {
    OperandsAlike(rt, args, args', keys, at);
    NoColumnAligned(args');
  }

  // Once the column is a slot, such a comparison keeps its value exactly when the row's value is
  // null or the literal is not parsed.
  lemma {:induction false} ComparisonRewritten(rt: Runtime, op: Op, args: seq<Expr>, args': seq<Expr>,
                                               keys: seq<Expr>, at: Place)
    requires TypedRow(at.row, at.scope) && AllRewritten(rt, args, args', keys, at) && ReferencesOf(args') == []
    requires Compares(op) && AlignedWith(args).Some? && BindOver(rt, Node(op, args), at.scope, |keys|, |at.aggs|).Ok?
    ensures Rewritten(rt, Node(op, args), Node(op, args'), keys, at) <==>
            var i := Resolve(at.scope, AlignedWith(args).value).value;
            at.row[i] == Null || !Reparsed(LiteralOf(args), at.scope[i].ty)
  {
    var i, c := AlignedBinds(rt, op, args, keys, at);
    ReadsAsWritten(rt, op, args, args', keys, at);
    var inner, lit, k := at.row + at.aggs, LiteralOf(args), at.row[i];
    assert inner[i] == k;
    CoercionMatters(rt, op.op, k, lit, at.scope[i].ty);
    if args[0].Literal? {
      ComparisonEval(rt, op.op, Literal(c), Var(i), inner, c, k);
      ComparisonEval(rt, op.op, Literal(lit), Var(i), inner, lit, k);
    } else {
      ComparisonEval(rt, op.op, Var(i), Literal(c), inner, k, c);
      ComparisonEval(rt, op.op, Var(i), Literal(lit), inner, k, lit);
    }
  }

  lemma {:induction false} FirstAlike(rt: Runtime, args: seq<Expr>, args': seq<Expr>, keys: seq<Expr>, at: Place)
    returns (p: seq<Phys>, q: seq<Phys>)
    requires AllRewritten(rt, args, args', keys, at) && BindAllOver(rt, args, at.scope, |keys|, |at.aggs|).Ok?
    ensures BindAllOver(rt, args, at.scope, |keys|, |at.aggs|) == Ok(p) && BindAll(rt, args', at.out) == Ok(q)
    ensures |p| == |args| == |q| == |args'|
    ensures args != [] ==> Eval(rt, q[0], at.key + at.aggs) == Eval(rt, p[0], at.row + at.aggs)
  {
    OperandsAlike(rt, args, args', keys, at);
    p, q := BindAllOver(rt, args, at.scope, |keys|, |at.aggs|).value, BindAll(rt, args', at.out).value;
    if args != [] {
      assert Eval(rt, q[0], at.key + at.aggs) == EvalAll(rt, q, at.key + at.aggs)[0];
    }
  }

  lemma {:induction false} TestRewritten(rt: Runtime, op: Op, args: seq<Expr>, args': seq<Expr>, keys: seq<Expr>,
                                         at: Place)
    requires op.In? && AllRewritten(rt, args, args', keys, at)
    ensures Rewritten(rt, Node(op, args), Node(op, args'), keys, at)
  {
    if BindOver(rt, Node(op, args), at.scope, |keys|, |at.aggs|).Ok? {
      var p, q := FirstAlike(rt, args, args', keys, at);
      TestsAlike(rt, q[0], p[0], op.values, op.negated, at.key + at.aggs, at.row + at.aggs);
    }
  }

  lemma {:induction false} PlainRewritten(rt: Runtime, op: Op, args: seq<Expr>, args': seq<Expr>, keys: seq<Expr>,
                                          at: Place)
    requires !op.In? && AllRewritten(rt, args, args', keys, at) && ReferencesOf(args') == []
    requires !Compares(op) || AlignedWith(args).None?
    ensures Rewritten(rt, Node(op, args), Node(op, args'), keys, at)
  {
    if BindOver(rt, Node(op, args), at.scope, |keys|, |at.aggs|).Ok? {
      OperandsAlike(rt, args, args', keys, at);
      NoColumnAligned(args');
    }
  }

  // Operands that mean the same, with no column left beside a literal.
  lemma {:induction false} NodeRewritten(rt: Runtime, op: Op, args: seq<Expr>, args': seq<Expr>, keys: seq<Expr>,
                                         at: Place)
    requires TypedRow(at.row, at.scope) && AllRewritten(rt, args, args', keys, at) && ReferencesOf(args') == []
    requires Compares(op) && AlignedWith(args).Some? ==> Unparsed(args, at.scope)
    ensures Rewritten(rt, Node(op, args), Node(op, args'), keys, at)
  {
    if op.In? {
      TestRewritten(rt, op, args, args', keys, at);
    } else if !Compares(op) || AlignedWith(args).None? {
      PlainRewritten(rt, op, args, args', keys, at);
    } else if BindOver(rt, Node(op, args), at.scope, |keys|, |at.aggs|).Ok? {
      ComparisonRewritten(rt, op, args, args', keys, at);
    }
  }

  lemma {:induction false} NoColumnAligned(args: seq<Expr>)
    requires ReferencesOf(args) == []
    ensures AlignedWith(args).None?
  {
    if |args| == 2 {
      NoneBelow(args, 0);
      NoneBelow(args, 1);
    }
  }

  // An expression without columns is left alone, and reads only aggregates.
  lemma {:induction false} ColumnFree(rt: Runtime, e: Expr, keys: seq<Expr>, at: Place)
    requires PlaceOk(rt, keys, at) && References(e) == []
    ensures Rewritten(rt, e, e, keys, at)
    decreases e
  {
    if e.Node? {
      forall i | 0 <= i < |e.args| ensures Rewritten(rt, e.args[i], e.args[i], keys, at) {
        NoneBelow(e.args, i);
        ColumnFree(rt, e.args[i], keys, at);
      }
      NoColumnAligned(e.args);
      NodeRewritten(rt, e.op, e.args, e.args, keys, at);
    }
  }

  // An accepted expression has, on the row the aggregate puts out, the value it has on every row
  // of the group.
  lemma {:induction false} RewriteMeans(rt: Runtime, e: Expr, keys: seq<Expr>, at: Place)
    requires PlaceOk(rt, keys, at) && Accepted(e, keys) && Uncoerced(e, keys, at.scope)
    ensures Rewritten(rt, e, Substitute(e, keys), keys, at)
    decreases e
  {
    match PositionIn(keys, e)
    case Some(i) => KeyReadsBack(rt, keys, at, i);
    case None =>
      if e.Node? && !e.op.In? {
        var args' := SubstituteAll(e.args, keys);
        forall i | 0 <= i < |e.args| ensures Rewritten(rt, e.args[i], args'[i], keys, at) {
          NoneBelow(args', i);
          RewriteMeans(rt, e.args[i], keys, at);
        }
        NodeRewritten(rt, e.op, e.args, args', keys, at);
      } else {
        ColumnFree(rt, e, keys, at);
      }
  }

  // --------------------------------------------------------------- over a group

  lemma {:induction false} MemberAt(rows: Relation, keys: seq<Row>, k: Row, m: nat) returns (i: nat)
    requires |rows| == |keys| && m < |Members(rows, keys, k)|
    ensures i < |rows| && rows[i] == Members(rows, keys, k)[m] && keys[i] == k
  {
    var n := |rows| - 1;
    if m < |Members(rows[..n], keys[..n], k)| {
      i := MemberAt(rows[..n], keys[..n], k, m);
    } else {
      i := n;
    }
  }

  ghost predicate KeysBound(rt: Runtime, keys: seq<Expr>, scope: Scope, groupBy: seq<Phys>) {
    |groupBy| == |keys| && forall i :: 0 <= i < |keys| ==>
      NoSlots(keys[i]) && Bind(rt, keys[i], scope) == Ok(groupBy[i])
  }

  lemma {:induction false} PlaceInGroup(rt: Runtime, keys: seq<Expr>, groupBy: seq<Phys>, at: Place)
    requires KeysBound(rt, keys, at.scope, groupBy) && KeyOf(rt, groupBy, at.row) == Ok(at.key)
    requires TypedRow(at.row, at.scope) && |at.out| == |keys| + |at.aggs|
    ensures PlaceOk(rt, keys, at)
  {
    CollectedAll(EvalAll(rt, groupBy, at.row));
    forall i | 0 <= i < |keys| ensures KeyHolds(rt, keys[i], at, i) {
      assert Bind(rt, keys[i], at.scope) == Ok(groupBy[i]);
    }
  }

  ghost predicate AllTyped(rows: Relation, scope: Scope) {
    forall i {:trigger TypedRow(rows[i], scope)} :: 0 <= i < |rows| ==> TypedRow(rows[i], scope)
  }

  lemma {:induction false} KeyAt(rt: Runtime, groupBy: seq<Phys>, rows: Relation, keyRows: seq<Row>, i: nat)
    requires KeysAre(rt, groupBy, rows, keyRows) && i < |rows|
    ensures KeyOf(rt, groupBy, rows[i]) == Ok(keyRows[i]) && |keyRows[i]| == |groupBy|
  {
    assert KeyIs(rt, groupBy, rows[i], keyRows[i]);
    CollectedAll(EvalAll(rt, groupBy, rows[i]));
  }

  // Each row of a group sits beside the group's key and its aggregate results.
  lemma {:induction false} PlaceOfRow(rt: Runtime, keys: seq<Expr>, groupBy: seq<Phys>, aggs: seq<AggCall<nat>>,
                                      rows: Relation, keyRows: seq<Row>, result: Relation, g: nat, i: nat, at: Place)
    requires AllTyped(rows, at.scope) && KeysBound(rt, keys, at.scope, groupBy) && |at.out| == |keys| + |aggs|
    requires KeysAre(rt, groupBy, rows, keyRows) && Grouped(rt, groupBy, aggs, rows, keyRows, result)
    requires g < |GroupsOf(groupBy, keyRows)| && i < |rows| && keyRows[i] == GroupsOf(groupBy, keyRows)[g]
    requires at.row == rows[i] && at.key == keyRows[i] && |at.key| <= |result[g]| && at.aggs == result[g][|at.key|..]
    ensures PlaceOk(rt, keys, at) && at.key + at.aggs == result[g] && |at.aggs| == |aggs|
    ensures ResultsAre(rt, aggs, Members(rows, keyRows, at.key), at.aggs)
  {
    assert TypedRow(rows[i], at.scope);
    KeyAt(rt, groupBy, rows, keyRows, i);
    assert GroupRow(rt, aggs, Members(rows, keyRows, at.key), at.key, result[g]);
    PlaceInGroup(rt, keys, groupBy, at);
  }

  // Whatever the aggregate puts out for a group, an accepted expression has there the value it
  // has on any row of that group, its aggregate calls being the folds over the group.
  lemma {:induction false} GroupMeans(rt: Runtime, e: Expr, keys: seq<Expr>, groupBy: seq<Phys>,
                                      aggs: seq<AggCall<nat>>, scope: Scope, out: Scope, rows: Relation,
                                      keyRows: seq<Row>, result: Relation, g: nat, m: nat)
    requires AllTyped(rows, scope) && KeysBound(rt, keys, scope, groupBy) && |out| == |keys| + |aggs|
    requires KeysAre(rt, groupBy, rows, keyRows) && Grouped(rt, groupBy, aggs, rows, keyRows, result)
    requires Accepted(e, keys) && Uncoerced(e, keys, scope) && BindOver(rt, e, scope, |keys|, |aggs|).Ok?
    requires g < |GroupsOf(groupBy, keyRows)| && m < |Members(rows, keyRows, GroupsOf(groupBy, keyRows)[g])|
    ensures var k := GroupsOf(groupBy, keyRows)[g];
            var row := Members(rows, keyRows, k)[m];
            var p, q := BindOver(rt, e, scope, |keys|, |aggs|), Bind(rt, Substitute(e, keys), out);
            && |k| == |keys| && |result[g]| == |keys| + |aggs|
            && ResultsAre(rt, aggs, Members(rows, keyRows, k), result[g][|keys|..])
            && q.Ok? && Eval(rt, q.value, result[g]) == Eval(rt, p.value, row + result[g][|keys|..])
  {
    var k := GroupsOf(groupBy, keyRows)[g];
    var i := MemberAt(rows, keyRows, k, m);
    assert GroupRow(rt, aggs, Members(rows, keyRows, k), k, result[g]);
    var at := Place(scope, out, rows[i], k, result[g][|k|..]);
    PlaceOfRow(rt, keys, groupBy, aggs, rows, keyRows, result, g, i, at);
    RewriteMeans(rt, e, keys, at);
  }

  // ------------------------------------------------ a literal beside a key

  const MOMENT: ColumnRef := ColumnRef(None, "at")

  const MOMENTS: Scope := [ScopeColumn([], "at", TimestampType, false)]

  lemma {:induction false} MomentFound()
    ensures Resolve(MOMENTS, MOMENT) == Ok(0)
  {
    assert MOMENTS[..0] == [];
    assert Candidates(MOMENTS, MOMENT) == [0];
  }

  lemma {:induction false} AsTimestamp(rt: Runtime, day: string, args: seq<Expr>)
    requires rt.parseTimestamp(day) == Some(0) && args == [Var(Column(MOMENT)), Literal(Text(day))]
    ensures BindOver(rt, Node(Binary(Eq), args), MOMENTS, 1, 0) == Ok(Two(Eq, Var(0), Literal(Timestamp(0))))
  {
    MomentFound();
    var ps := BindAllOver(rt, args, MOMENTS, 1, 0).value;
    assert ps == [Var(0), Literal(Text(day))];
    assert Aligned(rt, ps, TimestampType) == Ok([Var(0), Literal(Timestamp(0))]);
  }

  lemma {:induction false} AsText(rt: Runtime, day: string, args: seq<Expr>)
    requires args == [Var(Slot(0)), Literal(Text(day))]
    ensures Bind(rt, Node(Binary(Eq), args), MOMENTS) == Ok(Two(Eq, Var(0), Literal(Text(day))))
            && ReferencesOf(args) == []
  {
    var qs := BindAll(rt, args, MOMENTS).value;
    assert qs == [Var(0), Literal(Text(day))];
    assert args[..1][..0] == [] && ReferencesOf(args[..1]) == [];
  }

  lemma {:induction false} MomentSubstituted(day: string, args: seq<Expr>)
    requires args == [Var(Column(MOMENT)), Literal(Text(day))]
    ensures Substitute(Node(Binary(Eq), args), [Var(Column(MOMENT))]) ==
            Node(Binary(Eq), [Var(Slot(0)), Literal(Text(day))])
  {
    var keys: seq<Expr> := [Var(Column(MOMENT))];
    assert PositionIn(keys, args[0]) == Some(0);
    assert Substitute(args[1], keys) == args[1];
    assert SubstituteAll(args, keys) == [Var(Slot(0)), Literal(Text(day))];
  }

  // A literal that was read as the key's type is not, once the key is a slot.
  lemma {:induction false} CoercionLost(rt: Runtime, day: string)
    requires rt.parseTimestamp(day) == Some(0)
    ensures var key: Expr := Var(Column(MOMENT));
            var e: Expr := Two(Eq, key, Literal(Text(day)));
            && Accepted(e, [key]) && BindOver(rt, e, MOMENTS, 1, 0).Ok? && Bind(rt, Substitute(e, [key]), MOMENTS).Ok?
            && Eval(rt, BindOver(rt, e, MOMENTS, 1, 0).value, [Timestamp(0)]) == Ok(Boolean(true))
            && Eval(rt, Bind(rt, Substitute(e, [key]), MOMENTS).value, [Timestamp(0)]) ==
              Err(TypeMismatch(TimestampType, TextType))
  {
    var key: Expr := Var(Column(MOMENT));
    AsTimestamp(rt, day, [key, Literal(Text(day))]);
    MomentSubstituted(day, [key, Literal(Text(day))]);
    AsText(rt, day, [Var(Slot(0)), Literal(Text(day))]);
    EvalPair(rt, Binary(Eq), Var(0), Literal(Timestamp(0)), [Timestamp(0)]);
    EvalPair(rt, Binary(Eq), Var(0), Literal(Text(day)), [Timestamp(0)]);
  }
}
