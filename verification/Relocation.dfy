// An expression read in two scopes means the same where its columns do.
module Relocation {
  import opened Wrappers
  import opened Values
  import opened Exprs
  import opened Scalars
  import opened Evaluation
  import opened Balanced
  import opened Scopes

  // The reference is found in both scopes, with one type, and the rows agree on it.
  ghost predicate Agrees(ref: ColumnRef, s: Scope, t: Scope, row: Row, row': Row) {
    && Resolve(s, ref).Ok? && Resolve(t, ref).Ok?
    && var i, j := Resolve(s, ref).value, Resolve(t, ref).value;
       s[i].ty == t[j].ty && i < |row| && j < |row'| && row[i] == row'[j]
  }

  ghost predicate AllAgree(refs: seq<ColumnRef>, s: Scope, t: Scope, row: Row, row': Row) {
    forall ref {:trigger Agrees(ref, s, t, row, row')} :: ref in refs ==> Agrees(ref, s, t, row, row')
  }

  predicate NoSlots(e: Expr)
    decreases e
  {
    match e
    case Var(n) => n.Column?
    case Literal(_) => true
    case Node(_, args) => forall i :: 0 <= i < |args| ==> NoSlots(args[i])
  }

  // Both readings succeed, or neither does; and they come to the same.
  ghost predicate Alike(rt: Runtime, p: Result<Phys, PlanError>, q: Result<Phys, PlanError>, row: Row, row': Row) {
    (p.Ok? <==> q.Ok?) && (p.Ok? ==>
      Eval(rt, p.value, row) == Eval(rt, q.value, row') && (p.value.Literal? || q.value.Literal? ==> p == q))
  }

  ghost predicate AllAlike(rt: Runtime, ps: seq<Phys>, qs: seq<Phys>, row: Row, row': Row) {
    |ps| == |qs| && forall i {:trigger ps[i]} {:trigger qs[i]} :: 0 <= i < |ps| ==>
      Alike(rt, Ok(ps[i]), Ok(qs[i]), row, row')
  }

  lemma {:induction false} NodesAlike(rt: Runtime, op: Op, ps: seq<Phys>, qs: seq<Phys>, row: Row, row': Row)
    requires AllAlike(rt, ps, qs, row, row')
    ensures Eval(rt, Node(op, ps), row) == Eval(rt, Node(op, qs), row')
  {
    assert EvalAll(rt, ps, row) == EvalAll(rt, qs, row');
  }

  lemma {:induction false} TestsAlike(rt: Runtime, p: Phys, q: Phys, values: seq<Value>, negated: bool, row: Row,
                                      row': Row)
    requires Eval(rt, p, row) == Eval(rt, q, row')
    ensures Eval(rt, ValueTest(p, values, negated), row) == Eval(rt, ValueTest(q, values, negated), row')
  {
    InMeans(rt, row, p, values, negated);
    InMeans(rt, row', q, values, negated);
  }

  lemma {:induction false} CoercedAlike(rt: Runtime, p: Phys, q: Phys, target: DataType, row: Row, row': Row)
    requires Alike(rt, Ok(p), Ok(q), row, row')
    ensures Alike(rt, CoerceLiteral(rt, p, target), CoerceLiteral(rt, q, target), row, row')
  {
  }

  lemma {:induction false} AlignedAlike(rt: Runtime, ps: seq<Phys>, qs: seq<Phys>, target: DataType, row: Row,
                                        row': Row)
    requires AllAlike(rt, ps, qs, row, row') && |ps| == 2
    ensures Aligned(rt, ps, target).Ok? <==> Aligned(rt, qs, target).Ok?
    ensures Aligned(rt, ps, target).Ok? ==>
            AllAlike(rt, Aligned(rt, ps, target).value, Aligned(rt, qs, target).value, row, row')
  {
    CoercedAlike(rt, ps[0], qs[0], target, row, row');
    CoercedAlike(rt, ps[1], qs[1], target, row, row');
  }

  // A test over values is a literal only when there are none.
  lemma {:induction false} TestIsLiteral<V(!new)>(tested: Tree<V>, values: seq<Value>, negated: bool)
    ensures ValueTest(tested, values, negated).Literal? <==> values == []
  {
    if values != [] && !negated {
      var ts := Tests(tested, values);
      if |ts| > 1 {
        FoldIsJoined(ts, JoinOr<V>(), Or);
      }
    }
  }

  // The type a comparison is aligned to is the same in both scopes.
  lemma {:induction false} SameTarget(args: seq<Expr>, s: Scope, t: Scope, row: Row, row': Row)
    requires AllAgree(ReferencesOf(args), s, t, row, row') && AlignedWith(args).Some?
    ensures var ref := AlignedWith(args).value; Agrees(ref, s, t, row, row')
  {
    var ref := AlignedWith(args).value;
    if IsColumn(args[0]) && args[1].Literal? {
      ReferencedBelow(args, 0);
    } else {
      ReferencedBelow(args, 1);
    }
  }

  lemma {:induction false} BindNodeAlike(rt: Runtime, op: Op, args: seq<Expr>, ps: seq<Phys>, qs: seq<Phys>, s: Scope,
                                         t: Scope, row: Row, row': Row)
    requires |ps| == |args| && AllAlike(rt, ps, qs, row, row') && AllAgree(ReferencesOf(args), s, t, row, row')
    ensures Alike(rt, BindNode(rt, op, args, ps, s), BindNode(rt, op, args, qs, t), row, row')
  {
    if op.In? {
      if |ps| == 1 {
        assert Alike(rt, Ok(ps[0]), Ok(qs[0]), row, row');
        TestsAlike(rt, ps[0], qs[0], op.values, op.negated, row, row');
        TestIsLiteral(ps[0], op.values, op.negated);
        TestIsLiteral(qs[0], op.values, op.negated);
      }
    } else if Compares(op) && AlignedWith(args).Some? {
      SameTarget(args, s, t, row, row');
      var target := s[Resolve(s, AlignedWith(args).value).value].ty;
      AlignedAlike(rt, ps, qs, target, row, row');
      if Aligned(rt, ps, target).Ok? {
        NodesAlike(rt, op, Aligned(rt, ps, target).value, Aligned(rt, qs, target).value, row, row');
      }
    } else {
      NodesAlike(rt, op, ps, qs, row, row');
    }
  }

  lemma {:induction false} Relocated(rt: Runtime, e: Expr, s: Scope, t: Scope, row: Row, row': Row)
    requires NoSlots(e) && AllAgree(References(e), s, t, row, row')
    ensures Alike(rt, Bind(rt, e, s), Bind(rt, e, t), row, row')
    decreases e
  {
    match e
    case Var(Column(ref)) => assert Agrees(ref, s, t, row, row');
    case Literal(_) =>
    case Node(op, args) =>
      forall i | 0 <= i < |args| ensures Alike(rt, Bind(rt, args[i], s), Bind(rt, args[i], t), row, row') {
        ReferencedBelow(args, i);
        Relocated(rt, args[i], s, t, row, row');
      }
      if BindAll(rt, args, s).Ok? {
        BindNodeAlike(rt, op, args, BindAll(rt, args, s).value, BindAll(rt, args, t).value, s, t, row, row');
      }
  }
}
