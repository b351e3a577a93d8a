// A left join whose condition is about its right side only: pushed down, it empties that side, and
// the loop then has no row to learn the padding's width from.
module LostPadding {
  import opened Wrappers
  import opened Values
  import opened Exprs
  import opened Scalars
  import opened Evaluation
  import opened Scopes
  import opened Joins
  import opened Plans
  import opened Sides
  import opened Pushdown
  import opened Execution

  const T: Source := Source(0, "t", None, [ColumnInfo("x", Int4Type, false)])

  const U: Source := Source(1, "u", None, [ColumnInfo("y", Int4Type, false)])

  const Y: ColumnRef := ColumnRef(None, "y")

  const TEST: Expr := Node(IsNull, [Var(Column(Y))])

  // SELECT ... FROM t LEFT JOIN u ON y IS NULL
  const PLAN: Plan := Join(Scan(T, None), Scan(U, None), Left, Some(TEST))

  const PUSHED: Plan := Join(Scan(T, None), Scan(U, Some(TEST)), Left, None)

  lemma {:induction false} OneColumn(scope: Scope, ref: ColumnRef)
    requires |scope| == 1
    ensures Candidates(scope, ref) == if Answers(scope[0], ref) then [0] else []
  {
    assert scope[..0] == [];
  }

  lemma {:induction false} WhereY()
    ensures Candidates(SourceScope(T), Y) == [] && Candidates(SourceScope(U), Y) == [0]
    ensures Resolve(JoinScope(Left, SourceScope(T), SourceScope(U)), Y) == Ok(1)
  {
    OneColumn(SourceScope(T), Y);
    OneColumn(SourceScope(U), Y);
    JoinNames(Left, SourceScope(T), SourceScope(U), Y);
  }

  lemma {:induction false} ReferencesOne(e: Expr)
    ensures ReferencesOf([e]) == References(e)
  {
    var es := [e];
    assert es[..|es| - 1] == [] && [] + References(e) == References(e);
  }

  lemma {:induction false} TestBelongsRight()
    ensures SideOf(TEST, SourceScope(T), SourceScope(U)) == RightSide
  {
    WhereY();
    ReferencesOne(Var(Column(Y)));
    var refs := References(TEST);
    assert refs == [Y] && !CanResolve(SourceScope(T), refs[0]) && CanResolve(SourceScope(U), refs[0]);
  }

  lemma {:induction false} DealtOne(kind: JoinType, isOn: bool, e: Expr, l: Scope, r: Scope, to: Bucket)
    ensures Dealt(kind, isOn, [e], l, r, to) == if BucketOf(kind, isOn, SideOf(e, l, r)) == to then [e] else []
  {
    var es := [e];
    assert es[..|es| - 1] == [] && [] + [e] == [e];
  }

  lemma {:induction false} TestDealt(l: Scope, r: Scope, to: Bucket)
    requires SideOf(TEST, l, r) == RightSide
    ensures Share(Left, [], Some(TEST), l, r, to) == if to == ToRight then [TEST] else []
  {
    DealtOne(Left, true, TEST, l, r, to);
    assert SplitOption(Some(TEST)) == [TEST];
    assert [] + [TEST] == [TEST];
  }

  lemma {:induction false} ScanTakes(source: Source, e: Expr)
    ensures PushPredicates(Scan(source, None), []) == Scan(source, None)
    ensures PushPredicates(Scan(source, None), [e]) == Scan(source, Some(e))
  {
    assert [] + [e] == [e];
  }

  lemma {:induction false} TestPushed()
    ensures Optimize(PLAN) == PUSHED
  {
    var l, r := SourceScope(T), SourceScope(U);
    TestBelongsRight();
    TestDealt(l, r, ToLeft);
    TestDealt(l, r, ToRight);
    TestDealt(l, r, Above);
    TestDealt(l, r, Condition);
    ScanTakes(T, TEST);
    ScanTakes(U, TEST);
  }

  lemma {:induction false} BindTest(rt: Runtime, scope: Scope, i: nat)
    requires Resolve(scope, Y) == Ok(i)
    ensures Bind(rt, TEST, scope) == Ok(Node(IsNull, [Var(i)]))
  {
    assert BindAll(rt, TEST.args, scope).value == [Var(i)];
  }

  lemma {:induction false} PlanLowers(rt: Runtime)
    ensures LowerPlan(rt, PLAN).Ok?
    ensures LowerPlan(rt, PLAN).value.plan ==
            LoopJoin(SeqScan(0, None), SeqScan(1, None), Left, Some(Node(IsNull, [Var(1)])), 1, 1)
  {
    WhereY();
    BindTest(rt, JoinScope(Left, SourceScope(T), SourceScope(U)), 1);
  }

  lemma {:induction false} PushedLowers(rt: Runtime)
    ensures LowerPlan(rt, PUSHED).Ok?
    ensures LowerPlan(rt, PUSHED).value.plan ==
            LoopJoin(SeqScan(0, None), SeqScan(1, Some(Node(IsNull, [Var(0)]))), Left, None, 1, 1)
  {
    WhereY();
    BindTest(rt, SourceScope(U), 0);
  }

  // ------------------------------------------------------------------- executing

  lemma {:induction false} FilterOne(rt: Runtime, on: Option<Phys>, row: Row)
    requires Test(rt, on, row).Ok?
    ensures FilterRows(rt, on, [row]) == Ok(if Test(rt, on, row).value then [row] else [])
  {
    var rows := [row];
    assert rows[..|rows| - 1] == [] && [] + [row] == [row];
    assert FilterRows(rt, on, []) == Ok([]);
  }

  lemma {:induction false} NotNull(rt: Runtime, row: Row, i: nat)
    requires i < |row| && row[i] != Null
    ensures Test(rt, Some(Node(IsNull, [Var(i)])), row) == Ok(false)
  {
    EvalOne(rt, IsNull, Var(i), row);
  }

  lemma {:induction false} NoMatch(rt: Runtime, on: Option<Phys>, l: Row, inner: Relation)
    requires inner == [] || (|inner| == 1 && Test(rt, on, l + inner[0]) == Ok(false))
    ensures RowError(rt, on, l, inner).None? && Matches(l, inner, KeptBy(rt, on)) == []
  {
    if inner != [] {
      assert inner[..|inner| - 1] == [];
    }
  }

  lemma {:induction false} PadOne(rt: Runtime, on: Option<Phys>, l: Row, inner: Relation, width: nat)
    requires inner == [] || (|inner| == 1 && Test(rt, on, l + inner[0]) == Ok(false))
    ensures JoinRows(rt, Left, on, [l], inner, |l|, width) == Ok([l + Nulls(width)])
  {
    NoMatch(rt, on, l, inner);
    var outer, keep := [l], KeptBy(rt, on);
    assert outer[..|outer| - 1] == [];
    assert RowsFor(l, inner, keep, Some(width)) == [l + Nulls(width)];
    assert LeftPart([], inner, keep, Some(width)) == [];
    assert LeftPart(outer, inner, keep, Some(width)) == [] + [l + Nulls(width)] == [l + Nulls(width)];
    assert [l + Nulls(width)] + [] == [l + Nulls(width)];
    assert PairError(rt, on, [], inner).None?;
  }

  lemma {:induction false} Unpushed(rt: Runtime, db: Database, l: Row, r: Row)
    requires db(0) == [l] && db(1) == [r] && |l| == |r| == 1 && r[0] != Null
    ensures Executed(rt, db, LoopJoin(SeqScan(0, None), SeqScan(1, None), Left, Some(Node(IsNull, [Var(1)])), 1, 1))
         == Ok([l + Nulls(1)])
  {
    FilterOne(rt, None, l);
    FilterOne(rt, None, r);
    NotNull(rt, l + r, 1);
    PadOne(rt, Some(Node(IsNull, [Var(1)])), l, [r], 1);
  }

  lemma {:induction false} PushedDown(rt: Runtime, db: Database, l: Row, r: Row)
    requires db(0) == [l] && db(1) == [r] && |l| == |r| == 1 && r[0] != Null
    ensures Executed(rt, db, LoopJoin(SeqScan(0, None), SeqScan(1, Some(Node(IsNull, [Var(0)]))), Left, None, 1, 1))
         == Ok([l])
  {
    FilterOne(rt, None, l);
    NotNull(rt, r, 0);
    FilterOne(rt, Some(Node(IsNull, [Var(0)])), r);
    PadOne(rt, None, l, [], 0);
    assert l + Nulls(0) == l;
  }

  // With one row on each side, the plan executed as it stands pads the left row with a null;
  // executed after optimisation it leaves the row too short.
  lemma {:induction false} OptimizingLosesPadding(rt: Runtime, db: Database, l: Row, r: Row)
    requires db(0) == [l] && db(1) == [r] && |l| == |r| == 1 && r[0] != Null
    ensures LowerPlan(rt, PLAN).Ok? && Executed(rt, db, LowerPlan(rt, PLAN).value.plan) == Ok([l + Nulls(1)])
    ensures LowerPlan(rt, Optimize(PLAN)).Ok? && Executed(rt, db, LowerPlan(rt, Optimize(PLAN)).value.plan) == Ok([l])
  {
    TestPushed();
    PlanLowers(rt);
    PushedLowers(rt);
    Unpushed(rt, db, l, r);
    PushedDown(rt, db, l, r);
  }
}
