// Predicates as lists of conjuncts, taken apart and put together again.
module Conjuncts {
  import opened Wrappers
  import opened Values
  import opened Exprs
  import opened Scalars
  import opened Evaluation
  import opened Folding
  import opened Balanced
  import opened Scopes

  function SplitConjunction(e: Expr): (es: seq<Expr>)
    ensures es != []
    decreases e
  {
    if IsBinary(e, And) then SplitConjunction(e.args[0]) + SplitConjunction(e.args[1]) else [e]
  }

  function Combine(es: seq<Expr>): Option<Expr> { if es == [] then None else Some(Chain(es, JoinAnd())) }

  method SplitInto(e: Expr, out: seq<Expr>) returns (es: seq<Expr>)
    ensures es == out + SplitConjunction(e)
    decreases e
  {
    if IsBinary(e, And) {
      es := SplitInto(e.args[0], out);
      es := SplitInto(e.args[1], es);
    } else {
      es := out + [e];
    }
  }

  method CombineConjunction(preds: seq<Expr>) returns (r: Option<Expr>)
    ensures r == Combine(preds)
  {
    if preds == [] {
      return None;
    }
    var acc := preds[0];
    assert preds[..1] == [preds[0]];
    for i := 1 to |preds|
      invariant acc == Chain(preds[..i], JoinAnd())
    {
      assert preds[..i + 1][..i] == preds[..i];
      acc := Two(And, acc, preds[i]);
    }
    assert preds[..|preds|] == preds;
    return Some(acc);
  }

  // ---------------------------------------------------------- what they mean

  ghost predicate Truthy(x: Outcome) { x.Ok? && (x.value == Null || x.value.Boolean?) }

  ghost predicate Answers3(rt: Runtime, p: Phys, row: Row) { Truthy(Eval(rt, p, row)) }

  // It resolves, and on every row of the declared types it is true, false or unknown.
  ghost predicate Safe(rt: Runtime, e: Expr, scope: Scope) {
    && Bind(rt, e, scope).Ok?
    && forall row {:trigger Answers3(rt, Bind(rt, e, scope).value, row)} :: TypedRow(row, scope) ==>
      Answers3(rt, Bind(rt, e, scope).value, row)
  }

  ghost predicate AllSafe(rt: Runtime, es: seq<Expr>, scope: Scope) {
    forall e {:trigger Safe(rt, e, scope)} :: e in es ==> Safe(rt, e, scope)
  }

  ghost predicate Holds(rt: Runtime, e: Expr, scope: Scope, row: Row) {
    Bind(rt, e, scope).Ok? && Eval(rt, Bind(rt, e, scope).value, row) == Ok(Boolean(true))
  }

  ghost predicate AllHold(rt: Runtime, es: seq<Expr>, scope: Scope, row: Row) {
    forall e {:trigger Holds(rt, e, scope, row)} :: e in es ==> Holds(rt, e, scope, row)
  }

  ghost function Passing(rt: Runtime, es: seq<Expr>, scope: Scope): Row -> bool { row => AllHold(rt, es, scope, row) }

  lemma {:induction false} HoldBoth(rt: Runtime, a: seq<Expr>, b: seq<Expr>, scope: Scope, row: Row)
    ensures AllHold(rt, a + b, scope, row) <==> AllHold(rt, a, scope, row) && AllHold(rt, b, scope, row)
  {
    if AllHold(rt, a + b, scope, row) {
      forall e | e in a ensures Holds(rt, e, scope, row) {
        assert e in a + b;
      }
      forall e | e in b ensures Holds(rt, e, scope, row) {
        assert e in a + b;
      }
    }
  }

  lemma {:induction false} SafeBoth(rt: Runtime, a: seq<Expr>, b: seq<Expr>, scope: Scope)
    ensures AllSafe(rt, a + b, scope) <==> AllSafe(rt, a, scope) && AllSafe(rt, b, scope)
  {
    if AllSafe(rt, a + b, scope) {
      forall e | e in a ensures Safe(rt, e, scope) {
        assert e in a + b;
      }
      forall e | e in b ensures Safe(rt, e, scope) {
        assert e in a + b;
      }
    }
  }

  lemma {:induction false} HoldOne(rt: Runtime, e: Expr, scope: Scope, row: Row)
    ensures AllHold(rt, [e], scope, row) <==> Holds(rt, e, scope, row)
  {
    assert e in [e];
  }

  // ------------------------------------------------------------- AND, bound

  lemma {:induction false} BindAnd(rt: Runtime, a: Expr, b: Expr, scope: Scope)
    ensures Bind(rt, Two(And, a, b), scope).Ok? <==> Bind(rt, a, scope).Ok? && Bind(rt, b, scope).Ok?
    ensures Bind(rt, Two(And, a, b), scope).Ok? ==>
              Bind(rt, Two(And, a, b), scope).value == Two(And, Bind(rt, a, scope).value, Bind(rt, b, scope).value)
  {
    var args := [a, b];
    assert args[0] == a && args[1] == b;
    if BindAll(rt, args, scope).Ok? {
      assert BindAll(rt, args, scope).value == [Bind(rt, a, scope).value, Bind(rt, b, scope).value];
    }
  }

  // On rows where both have an answer, the conjunction holds when both do.
  lemma {:induction false} EvalAnd(rt: Runtime, p: Phys, q: Phys, row: Row)
    requires Truthy(Eval(rt, p, row)) && Truthy(Eval(rt, q, row))
    ensures Truthy(Eval(rt, Two(And, p, q), row))
    ensures Eval(rt, Two(And, p, q), row) == Ok(Boolean(true)) <==>
            Eval(rt, p, row) == Ok(Boolean(true)) && Eval(rt, q, row) == Ok(Boolean(true))
  {
    EvalPair(rt, Binary(And), p, q, row);
  }

  lemma {:induction false} AndSafe(rt: Runtime, a: Expr, b: Expr, scope: Scope)
    requires Safe(rt, a, scope) && Safe(rt, b, scope)
    ensures Safe(rt, Two(And, a, b), scope)
    ensures forall row :: TypedRow(row, scope) ==>
            (Holds(rt, Two(And, a, b), scope, row) <==> Holds(rt, a, scope, row) && Holds(rt, b, scope, row))
  {
    BindAnd(rt, a, b, scope);
    var p, q := Bind(rt, a, scope).value, Bind(rt, b, scope).value;
    forall row | TypedRow(row, scope)
      ensures Answers3(rt, Bind(rt, Two(And, a, b), scope).value, row)
      ensures Holds(rt, Two(And, a, b), scope, row) <==> Holds(rt, a, scope, row) && Holds(rt, b, scope, row)
    {
      assert Answers3(rt, p, row) && Answers3(rt, q, row);
      EvalAnd(rt, p, q, row);
    }
  }

  // The list recombined is as safe as its members, and holds when all of them do.
  lemma {:induction false} CombineMeans(rt: Runtime, es: seq<Expr>, scope: Scope)
    requires es != [] && AllSafe(rt, es, scope)
    ensures Safe(rt, Chain(es, JoinAnd()), scope)
    ensures forall row :: TypedRow(row, scope) ==>
            (Holds(rt, Chain(es, JoinAnd()), scope, row) <==> AllHold(rt, es, scope, row))
  {
    var n := |es| - 1;
    assert es[n] in es && Safe(rt, es[n], scope);
    if n == 0 {
      assert es == [es[0]];
      forall row | TypedRow(row, scope) ensures Holds(rt, es[0], scope, row) <==> AllHold(rt, es, scope, row) {
        HoldOne(rt, es[0], scope, row);
      }
    } else {
      var front := es[..n];
      assert es == front + [es[n]];
      SafeBoth(rt, front, [es[n]], scope);
      CombineMeans(rt, front, scope);
      AndSafe(rt, Chain(front, JoinAnd()), es[n], scope);
      forall row | TypedRow(row, scope) ensures Holds(rt, Chain(es, JoinAnd()), scope, row) <==>
        AllHold(rt, es, scope, row) {
        HoldBoth(rt, front, [es[n]], scope, row);
        HoldOne(rt, es[n], scope, row);
      }
    }
  }

  lemma {:induction false} SplitMeans(rt: Runtime, e: Expr, scope: Scope)
    requires AllSafe(rt, SplitConjunction(e), scope)
    ensures Safe(rt, e, scope)
    ensures forall row :: TypedRow(row, scope) ==>
            (Holds(rt, e, scope, row) <==> AllHold(rt, SplitConjunction(e), scope, row))
    decreases e
  {
    if IsBinary(e, And) {
      var a, b := e.args[0], e.args[1];
      assert e == Two(And, a, b);
      SafeBoth(rt, SplitConjunction(a), SplitConjunction(b), scope);
      SplitMeans(rt, a, scope);
      SplitMeans(rt, b, scope);
      AndSafe(rt, a, b, scope);
      forall row | TypedRow(row, scope) ensures Holds(rt, e, scope, row) <==>
        AllHold(rt, SplitConjunction(e), scope, row) {
        HoldBoth(rt, SplitConjunction(a), SplitConjunction(b), scope, row);
      }
    } else {
      assert e in [e] && Safe(rt, e, scope);
      forall row | TypedRow(row, scope) ensures Holds(rt, e, scope, row) <==>
        AllHold(rt, SplitConjunction(e), scope, row) {
        HoldOne(rt, e, scope, row);
      }
    }
  }
}
