// Running a plan with the executor's own join loop, which learns the padding's width from the
// rows it sees.
module Execution {
  import opened Wrappers
  import opened Exprs
  import opened Scalars
  import opened Scopes
  import opened Inference
  import opened Joins
  import opened Aggregates
  import opened Plans
  import opened PlanTypes
  import opened Conjuncts
  import opened Pushdown
  import opened Optimizer

  // As `Stream`, with the joins the loop makes.
  ghost function Executed(rt: Runtime, db: Database, p: PhysPlan): Rows {
    match p
    case SeqScan(table, filter) => FilterRows(rt, filter, db(table))
    case LoopJoin(left, right, kind, on, _, _) =>
      (match (Executed(rt, db, left), Executed(rt, db, right))
       case (Ok(outer), Ok(inner)) => JoinRows(rt, kind, on, outer, inner, FirstWidth(outer), FirstWidth(inner))
       case (Err(e), _) => Err(e)
       case (_, Err(e)) => Err(e))
    case FilterBy(input, cond) =>
      (match Executed(rt, db, input) case Err(e) => Err(e) case Ok(rows) => FilterRows(rt, Some(cond), rows))
    case GroupBy(input, groupBy, calls) =>
      (match Executed(rt, db, input) case Err(e) => Err(e) case Ok(rows) => GroupRows(rt, groupBy, calls, rows))
    case Project(input, exprs) => (match Executed(rt, db, input) case Err(e) => Err(e) case Ok(rows) => KeyRows(rt,
      exprs, rows))
    case OrderBy(input, keys, orders) =>
      (match Executed(rt, db, input) case Err(e) => Err(e) case Ok(rows) => SortRows(rt, keys, orders, rows))
    case Unique(input) => (match Executed(rt, db, input) case Err(e) => Err(e) case Ok(rows) => Ok(FirstSeen(rows)))
    case Slice(input, count, offset) =>
      (match Executed(rt, db, input) case Err(e) => Err(e) case Ok(rows) => Ok(SliceRows(rows, count, offset)))
  }

  ghost predicate JoinPads(kind: JoinType, outer: Rows, inner: Rows, leftWidth: nat, rightWidth: nat) {
    outer.Ok? && inner.Ok? ==> !PaddingLost(kind, outer.value, inner.value, leftWidth, rightWidth)
  }

  // No outer join on the way pads against a side that came up empty.
  ghost predicate PaddingKept(rt: Runtime, db: Database, p: PhysPlan) {
    match p
    case SeqScan(_, _) => true
    case LoopJoin(left, right, kind, _, lw, rw) =>
      && PaddingKept(rt, db, left) && PaddingKept(rt, db, right)
      && JoinPads(kind, Executed(rt, db, left), Executed(rt, db, right), lw, rw)
    case FilterBy(input, _) => PaddingKept(rt, db, input)
    case GroupBy(input, _, _) => PaddingKept(rt, db, input)
    case Project(input, _) => PaddingKept(rt, db, input)
    case OrderBy(input, _, _) => PaddingKept(rt, db, input)
    case Unique(input) => PaddingKept(rt, db, input)
    case Slice(input, _, _) => PaddingKept(rt, db, input)
  }

  lemma {:induction false} ConformingIsWide(rows: Relation, scope: Scope)
    requires AllConform(rows, scope)
    ensures Wide(rows, |scope|)
  {
    forall i | 0 <= i < |rows| ensures |rows[i]| == |scope| {
      assert rows[i] in rows && Conforms(rows[i], scope);
    }
  }

  // The loop's join is the declared one exactly when the padding was kept, or both fail alike.
  lemma {:induction false} JoinExecuted(rt: Runtime, kind: JoinType, on: Option<Phys>, outer: Relation,
                                        inner: Relation, lw: nat, rw: nat)
    requires Wide(outer, lw) && Wide(inner, rw)
    ensures JoinRows(rt, kind, on, outer, inner, FirstWidth(outer), FirstWidth(inner)) ==
            JoinRows(rt, kind, on, outer, inner, lw, rw)
            <==> PairError(rt, on, outer, inner).Some? || !PaddingLost(kind, outer, inner, lw, rw)
  {
    LoopIsTheJoin(kind, outer, inner, KeptBy(rt, on), lw, rw);
  }

  // Executing a plan puts out the rows the plan stands for.
  lemma {:induction false} ExecutedMeans(rt: Runtime, db: Database, p: Plan)
    requires LowerPlan(rt, p).Ok? && Typable(rt, p) && Stocked(db, p)
             && PaddingKept(rt, db, LowerPlan(rt, p).value.plan)
    ensures Executed(rt, db, LowerPlan(rt, p).value.plan) == Stream(rt, db, LowerPlan(rt, p).value.plan)
    decreases p
  {
    match p
    case Scan(_, _) =>
    case Join(left, right, kind, on) =>
      ExecutedMeans(rt, db, left);
      ExecutedMeans(rt, db, right);
      JoinStep(rt, db, p);
    case _ =>
      ExecutedMeans(rt, db, p.input);
      NodeStep(rt, db, p);
  }

  lemma {:induction false} NodeStep(rt: Runtime, db: Database, p: Plan)
    requires !p.Scan? && !p.Join? && LowerPlan(rt, p).Ok?
    requires var x := LowerPlan(rt, p.input).value.plan; Executed(rt, db, x) == Stream(rt, db, x)
    ensures Executed(rt, db, LowerPlan(rt, p).value.plan) == Stream(rt, db, LowerPlan(rt, p).value.plan)
  {
  }

  lemma {:induction false} JoinStep(rt: Runtime, db: Database, p: Plan)
    requires p.Join? && LowerPlan(rt, p).Ok? && Typable(rt, p) && Stocked(db, p)
    requires var x := LowerPlan(rt, p).value.plan;
             && PaddingKept(rt, db, x) && Executed(rt, db, x.left) == Stream(rt, db, x.left)
               && Executed(rt, db, x.right) == Stream(rt, db, x.right)
    ensures Executed(rt, db, LowerPlan(rt, p).value.plan) == Stream(rt, db, LowerPlan(rt, p).value.plan)
  {
    var x := LowerPlan(rt, p).value.plan;
    var outer, inner := Stream(rt, db, x.left), Stream(rt, db, x.right);
    if outer.Ok? && inner.Ok? {
      PlanConforms(rt, db, p.left);
      PlanConforms(rt, db, p.right);
      ConformingIsWide(outer.value, LowerPlan(rt, p.left).value.scope);
      ConformingIsWide(inner.value, LowerPlan(rt, p.right).value.scope);
      JoinExecuted(rt, x.kind, x.on, outer.value, inner.value, x.leftWidth, x.rightWidth);
    }
  }

  // ------------------------------------------------------- after optimisation

  lemma {:induction false} StockedPushed(db: Database, p: Plan, pending: seq<Expr>)
    requires Stocked(db, p)
    ensures Stocked(db, PushPredicates(p, pending))
    decreases p
  {
    match p
    case Scan(_, _) =>
    case Filter(input, cond) => StockedPushed(db, input, pending + SplitConjunction(cond));
    case Join(left, right, kind, on) =>
      if ScopeOf(left).Some? && ScopeOf(right).Some? {
        StockedPushed(db, left, Share(kind, pending, on, ScopeOf(left).value, ScopeOf(right).value, ToLeft));
        StockedPushed(db, right, Share(kind, pending, on, ScopeOf(left).value, ScopeOf(right).value, ToRight));
      } else {
        StockedPushed(db, left, []);
        StockedPushed(db, right, []);
      }
    case _ =>
      StockedPushed(db, p.input, pending);
      StockedPushed(db, p.input, []);
  }

  // A node that decides columns finds the same scope below it as before.
  lemma {:induction false} BarrierTypable(rt: Runtime, p: Plan, q: Plan, pending: seq<Expr>)
    requires p.Aggregate? || p.Projection? || p.Distinct? || p.Limit?
    requires Typable(rt, p) && Typable(rt, q) && LowerPlan(rt, p.input).Ok? && LowerPlan(rt, q).Ok?
    requires LowerPlan(rt, q).value.scope == LowerPlan(rt, p.input).value.scope
    ensures Typable(rt, Materialize(Over(p, q), pending))
  {
  }

  lemma {:induction false} TypablePushed(rt: Runtime, db: Database, p: Plan, pending: seq<Expr>)
    requires Ready(rt, db, p, pending)
    ensures Typable(rt, PushPredicates(p, pending))
    decreases p, 1
  {
    match p
    case Scan(_, _) =>
    case Filter(input, cond) =>
      InputReady(rt, db, p, pending);
      TypablePushed(rt, db, input, pending + SplitConjunction(cond));
    case Sort(input, _) => TypablePushed(rt, db, input, pending);
    case Join(_, _, _, _) => TypableJoin(rt, db, p, pending);
    case _ => TypableBarrier(rt, db, p, pending);
  }

  lemma {:induction false} TypableJoin(rt: Runtime, db: Database, p: Plan, pending: seq<Expr>)
    requires p.Join? && Ready(rt, db, p, pending)
    ensures Typable(rt, PushPredicates(p, pending))
    decreases p, 0
  {
    SidesReady(rt, db, p, pending);
    TypablePushed(rt, db, p.left, Share(p.kind, pending, p.on, ScopeOf(p.left).value, ScopeOf(p.right).value, ToLeft));
    TypablePushed(rt, db, p.right,
      Share(p.kind, pending, p.on, ScopeOf(p.left).value, ScopeOf(p.right).value, ToRight));
  }

  lemma {:induction false} TypableBarrier(rt: Runtime, db: Database, p: Plan, pending: seq<Expr>)
    requires (p.Aggregate? || p.Projection? || p.Distinct? || p.Limit?) && Ready(rt, db, p, pending)
    ensures Typable(rt, PushPredicates(p, pending))
    decreases p, 0
  {
    TypablePushed(rt, db, p.input, []);
    PushMeans(rt, db, p.input, []);
    BarrierTypable(rt, p, PushPredicates(p.input, []), pending);
  }

  // Executed with the loop that is there, the optimised plan still puts out what the plan it came
  // from stands for, unless one of its own joins loses its padding.
  lemma {:induction false} OptimizedRun(rt: Runtime, db: Database, p: Plan)
    requires LowerPlan(rt, p).Ok? && Sound(rt, p) && Typable(rt, p) && Stocked(db, p)
    ensures LowerPlan(rt, Optimize(p)).Ok?
    ensures PaddingKept(rt, db, LowerPlan(rt, Optimize(p)).value.plan) ==>
            Executed(rt, db, LowerPlan(rt, Optimize(p)).value.plan) == Stream(rt, db, LowerPlan(rt, p).value.plan)
  {
    OptimizeMeans(rt, db, p);
    if PaddingKept(rt, db, LowerPlan(rt, Optimize(p)).value.plan) {
      StockedPushed(db, p, []);
      TypablePushed(rt, db, p, []);
      ExecutedMeans(rt, db, Optimize(p));
    }
  }
}
