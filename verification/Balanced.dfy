// Conjunctions, disjunctions and value lists folded into one tree by halving.
module Balanced {
  import opened Wrappers
  import opened Folding
  import opened Values
  import opened Ordering
  import opened Exprs
  import opened Scalars
  import opened Evaluation

  // ------------------------------------------------------------ AND and OR

  function JoinOr<V>(): (Tree<V>, Tree<V>) -> Tree<V> { (l, r) => Two(Or, l, r) }

  function JoinAnd<V>(): (Tree<V>, Tree<V>) -> Tree<V> { (l, r) => Two(And, l, r) }

  type Truth = Result<Option<bool>, EvalError>

  ghost function TruthOf(rt: Runtime, row: Row): Phys -> Truth { e => AsBool(Eval(rt, e, row)) }

  lemma {:induction false} TruthAndBack(x: Truth)
    ensures AsBool(OfBool(x)) == x
  {
  }

  lemma {:induction false} OrCarries(rt: Runtime, row: Row)
    ensures Carries(TruthOf(rt, row), JoinOr<nat>(), OrElse) && Associative(OrElse)
  {
    forall l: Phys, r: Phys
      ensures TruthOf(rt, row)(JoinOr<nat>()(l, r)) == OrElse(TruthOf(rt, row)(l), TruthOf(rt, row)(r))
    {
      EvalPair(rt, Binary(Or), l, r, row);
      TruthAndBack(OrElse(AsBool(Eval(rt, l, row)), AsBool(Eval(rt, r, row))));
    }
  }

  lemma {:induction false} AndCarries(rt: Runtime, row: Row)
    ensures Carries(TruthOf(rt, row), JoinAnd<nat>(), AndThen) && Associative(AndThen)
  {
    forall l: Phys, r: Phys
      ensures TruthOf(rt, row)(JoinAnd<nat>()(l, r)) == AndThen(TruthOf(rt, row)(l), TruthOf(rt, row)(r))
    {
      EvalPair(rt, Binary(And), l, r, row);
      TruthAndBack(AndThen(AsBool(Eval(rt, l, row)), AsBool(Eval(rt, r, row))));
    }
  }

  // The halved disjunction and the chained one have the same value on every row, or fail with the
  // same error.
  lemma {:induction false} BalancedOr(rt: Runtime, row: Row, ts: seq<Phys>)
    requires ts != []
    ensures Eval(rt, Fold(ts, JoinOr()), row) == Eval(rt, Chain(ts, JoinOr()), row)
  {
    OrCarries(rt, row);
    FoldCarries(ts, JoinOr<nat>(), TruthOf(rt, row), OrElse);
    ChainCarries(ts, JoinOr<nat>(), TruthOf(rt, row), OrElse);
    FoldIsChain(Mapped(ts, TruthOf(rt, row)), OrElse);
    if |ts| > 1 {
      FoldIsJoined(ts, JoinOr<nat>(), Or);
      ChainIsJoined(ts, JoinOr<nat>(), Or);
      BooleanNode(rt, row, Fold(ts, JoinOr()), Or);
      BooleanNode(rt, row, Chain(ts, JoinOr()), Or);
    }
  }

  lemma {:induction false} BalancedAnd(rt: Runtime, row: Row, ts: seq<Phys>)
    requires ts != []
    ensures Eval(rt, Fold(ts, JoinAnd()), row) == Eval(rt, Chain(ts, JoinAnd()), row)
  {
    AndCarries(rt, row);
    FoldCarries(ts, JoinAnd<nat>(), TruthOf(rt, row), AndThen);
    ChainCarries(ts, JoinAnd<nat>(), TruthOf(rt, row), AndThen);
    FoldIsChain(Mapped(ts, TruthOf(rt, row)), AndThen);
    if |ts| > 1 {
      FoldIsJoined(ts, JoinAnd<nat>(), And);
      ChainIsJoined(ts, JoinAnd<nat>(), And);
      BooleanNode(rt, row, Fold(ts, JoinAnd()), And);
      BooleanNode(rt, row, Chain(ts, JoinAnd()), And);
    }
  }

  ghost predicate Joins<V(!new)>(join: (Tree<V>, Tree<V>) -> Tree<V>, op: BinaryOp) {
    forall l, r :: join(l, r) == Two(op, l, r)
  }

  lemma {:induction false} FoldIsJoined<V(!new)>(ts: seq<Tree<V>>, join: (Tree<V>, Tree<V>) -> Tree<V>, op: BinaryOp)
    requires |ts| > 1 && Joins(join, op)
    ensures IsBinary(Fold(ts, join), op)
    decreases |ts|
  {
    var p := Paired(ts, join);
    if |p| > 1 {
      FoldIsJoined(p, join, op);
    }
  }

  lemma {:induction false} ChainIsJoined<V(!new)>(ts: seq<Tree<V>>, join: (Tree<V>, Tree<V>) -> Tree<V>, op: BinaryOp)
    requires |ts| > 1 && Joins(join, op)
    ensures IsBinary(Chain(ts, join), op)
  {
  }

  // A conjunction or disjunction gives back exactly its truth value.
  lemma {:induction false} BooleanNode(rt: Runtime, row: Row, e: Phys, op: BinaryOp)
    requires IsBinary(e, op) && op in {And, Or}
    ensures Eval(rt, e, row) == OfBool(AsBool(Eval(rt, e, row)))
  {
    var xs := EvalAll(rt, e.args, row);
    TruthAndBack(if op == And then AndThen(AsBool(xs[0]), AsBool(xs[1])) else OrElse(AsBool(xs[0]), AsBool(xs[1])));
  }

  // ---------------------------------------------------------------- height

  ghost function TreeHeight<V>(): Tree<V> -> nat { e => Height(e) }

  lemma {:induction false} TwoClimbs<V(!new)>(join: (Tree<V>, Tree<V>) -> Tree<V>, op: BinaryOp)
    requires Joins(join, op)
    ensures Climbs(TreeHeight(), join)
  {
    forall a: Tree<V>, b: Tree<V> ensures TreeHeight()(join(a, b)) <= 1 + Larger(TreeHeight()(a), TreeHeight()(b)) {
      TwoHeight(op, a, b);
    }
  }

  lemma {:induction false} TwoHeight<V>(op: BinaryOp, a: Tree<V>, b: Tree<V>)
    ensures Height(Two(op, a, b)) == 1 + Larger(Height(a), Height(b))
  {
    assert [a, b][..1] == [a] && [a][..0] == [];
    assert HeightOf([a]) == Height(a);
    assert HeightOf([a, b]) == Larger(Height(a), Height(b));
  }

  // Folding at most 2^k trees with AND or with OR adds at most k levels.
  lemma {:induction false} FoldedHeight<V(!new)>(ts: seq<Tree<V>>, k: nat, h: nat)
    requires 0 < |ts| <= Pow2(k) && forall i :: 0 <= i < |ts| ==> Height(ts[i]) <= h
    ensures Height(Fold(ts, JoinOr())) <= h + k && Height(Fold(ts, JoinAnd())) <= h + k
  {
    TwoClimbs(JoinOr<V>(), Or);
    TwoClimbs(JoinAnd<V>(), And);
    LogarithmicHeight(ts, JoinOr<V>(), TreeHeight(), k, h);
    LogarithmicHeight(ts, JoinAnd<V>(), TreeHeight(), k, h);
  }

  // -------------------------------------------------------------------- IN

  function Tests<V>(tested: Tree<V>, values: seq<Value>): (ts: seq<Tree<V>>)
    ensures |ts| == |values| && forall i :: 0 <= i < |ts| ==> ts[i] == Two(Eq, tested, Literal(values[i]))
  {
    seq(|values|, i requires 0 <= i < |values| => Two(Eq, tested, Literal(values[i])))
  }

  function ValueTest<V>(tested: Tree<V>, values: seq<Value>, negated: bool): Tree<V> {
    if values == [] then Literal(Boolean(negated))
    else
      var any := Fold(Tests(tested, values), JoinOr());
      if negated then One(Not, any) else any
  }

  method BuildValueTest<V>(tested: Tree<V>, values: seq<Value>, negated: bool) returns (e: Tree<V>)
    ensures e == ValueTest(tested, values, negated)
  {
    if values == [] {
      return Literal(Boolean(negated));
    }
    var any := Balance(Tests(tested, values), JoinOr());
    e := if negated then One(Not, any) else any;
  }

  lemma {:induction false} TestHeight<V(!new)>(tested: Tree<V>, v: Value)
    ensures Height(Two(Eq, tested, Literal(v))) == 1 + Height(tested)
  {
    TwoHeight(Eq, tested, Literal(v));
  }

  lemma {:induction false} NotHeight<V(!new)>(e: Tree<V>)
    ensures Height(One(Not, e)) == 1 + Height(e)
  {
    assert [e][..0] == [] && HeightOf([e]) == Height(e);
  }

  // A test against 2^k values stands at most k + 2 levels above what it tests.
  lemma {:induction false} ValueTestHeight<V(!new)>(tested: Tree<V>, values: seq<Value>, negated: bool, k: nat)
    requires |values| <= Pow2(k)
    ensures Height(ValueTest(tested, values, negated)) <= Height(tested) + k + 2
  {
    if values != [] {
      var ts := Tests(tested, values);
      forall i | 0 <= i < |ts| ensures Height(ts[i]) <= 1 + Height(tested) {
        TestHeight(tested, values[i]);
      }
      FoldedHeight(ts, k, 1 + Height(tested));
      NotHeight(Fold(ts, JoinOr()));
    }
  }

  // Membership as SQL defines it: true if some member equals, else unknown if something is null,
  // else false. A member that cannot be compared fails unless an equal one came before it.
  function Member(x: Value, values: seq<Value>): Truth {
    if values == [] then Ok(Some(false))
    else
      var n := |values| - 1;
      OrElse(Member(x, values[..n]), AsBool(Comparison(Eq, x, values[n])))
  }

  lemma {:induction false} MemberChain(rt: Runtime, row: Row, tested: Phys, values: seq<Value>, x: Value)
    requires values != [] && Eval(rt, tested, row) == Ok(x)
    ensures Chain(Mapped(Tests(tested, values), TruthOf(rt, row)), OrElse) == Member(x, values)
  {
    var n := |values| - 1;
    var ms := Mapped(Tests(tested, values), TruthOf(rt, row));
    EvalPair(rt, Binary(Eq), tested, Literal(values[n]), row);
    assert ms[n] == AsBool(Comparison(Eq, x, values[n]));
    if n > 0 {
      MemberChain(rt, row, tested, values[..n], x);
      assert ms[..n] == Mapped(Tests(tested, values[..n]), TruthOf(rt, row));
    } else {
      assert Member(x, []) == Ok(Some(false));
    }
  }

  lemma {:induction false} FirstFails(rt: Runtime, row: Row, tested: Phys, values: seq<Value>)
    requires values != [] && Eval(rt, tested, row).Err?
    ensures Chain(Mapped(Tests(tested, values), TruthOf(rt, row)), OrElse) == Err(Eval(rt, tested, row).error)
  {
    var n := |values| - 1;
    var ms := Mapped(Tests(tested, values), TruthOf(rt, row));
    EvalPair(rt, Binary(Eq), tested, Literal(values[n]), row);
    if n > 0 {
      FirstFails(rt, row, tested, values[..n]);
      assert ms[..n] == Mapped(Tests(tested, values[..n]), TruthOf(rt, row));
    }
  }

  function Negated(t: Truth, negated: bool): Truth {
    match t case Ok(Some(b)) => Ok(Some(b != negated)) case _ => t
  }

  lemma {:induction false} AnyMeans(rt: Runtime, row: Row, tested: Phys, values: seq<Value>)
    requires values != []
    ensures AsBool(Eval(rt, Fold(Tests(tested, values), JoinOr<nat>()), row)) ==
            match Eval(rt, tested, row) case Err(e) => Err(e) case Ok(x) => Member(x, values)
  {
    var ts := Tests(tested, values);
    OrCarries(rt, row);
    FoldCarries(ts, JoinOr<nat>(), TruthOf(rt, row), OrElse);
    FoldIsChain(Mapped(ts, TruthOf(rt, row)), OrElse);
    match Eval(rt, tested, row)
    case Err(e) => FirstFails(rt, row, tested, values);
    case Ok(x) => MemberChain(rt, row, tested, values, x);
  }

  lemma {:induction false} EvalNot(rt: Runtime, row: Row, e: Phys)
    ensures Eval(rt, One(Not, e), row) == OfBool(Negated(AsBool(Eval(rt, e, row)), true))
  {
    EvalOne(rt, Not, e, row);
  }

  // The tree an `IN (SELECT ...)` becomes decides membership, and its negation `NOT IN`; over no
  // values at all the tested expression is not even looked at.
  lemma {:induction false} InMeans(rt: Runtime, row: Row, tested: Phys, values: seq<Value>, negated: bool)
    ensures Eval(rt, ValueTest(tested, values, negated), row) ==
            if values == [] then Ok(Boolean(negated))
            else match Eval(rt, tested, row)
              case Err(e) => Err(e)
              case Ok(x) => OfBool(Negated(Member(x, values), negated))
  {
    if values != [] {
      var any := Fold(Tests(tested, values), JoinOr<nat>());
      AnyMeans(rt, row, tested, values);
      AnyIsBoolean(rt, row, tested, values);
      EvalNot(rt, row, any);
    }
  }

  lemma {:induction false} AnyIsBoolean(rt: Runtime, row: Row, tested: Phys, values: seq<Value>)
    requires values != []
    ensures var any := Fold(Tests(tested, values), JoinOr<nat>());
            Eval(rt, any, row) == OfBool(AsBool(Eval(rt, any, row)))
  {
    var ts := Tests(tested, values);
    if |ts| > 1 {
      FoldIsJoined(ts, JoinOr<nat>(), Or);
      BooleanNode(rt, row, Fold(ts, JoinOr<nat>()), Or);
    } else {
      EvalPair(rt, Binary(Eq), tested, Literal(values[0]), row);
    }
  }

  ghost predicate Passes(x: Value, v: Value) { Compare(x, v).Ok? && Compare(x, v).value != Some(Equal) }

  lemma {:induction false} PassesMeans(x: Value, v: Value)
    requires Passes(x, v)
    ensures AsBool(Comparison(Eq, x, v)) == if x == Null || v == Null then Ok(None) else Ok(Some(false))
  {
  }

  // The first member that equals, or cannot be compared, decides.
  lemma {:induction false} MemberDecided(x: Value, values: seq<Value>, i: nat)
    requires i < |values| && (forall j :: 0 <= j < i ==> Passes(x, values[j])) && !Passes(x, values[i])
    ensures Member(x, values) == if Compare(x, values[i]).Err? then Err(Compare(x, values[i]).error) else Ok(Some(true))
  {
    var n := |values| - 1;
    if i < n {
      MemberDecided(x, values[..n], i);
    } else {
      MemberUndecided(x, values[..n]);
    }
  }

  // With no such member the answer is unknown exactly when a null was involved.
  lemma {:induction false} MemberUndecided(x: Value, values: seq<Value>)
    requires forall j :: 0 <= j < |values| ==> Passes(x, values[j])
    ensures Member(x, values) == if values != [] && (x == Null || Null in values) then Ok(None) else Ok(Some(false))
  {
    if values != [] {
      var n := |values| - 1;
      MemberUndecided(x, values[..n]);
      assert values == values[..n] + [values[n]];
      PassesMeans(x, values[n]);
    }
  }
}
