// Which side of a join a conjunct belongs to, and that it may be read there.
module Sides {
  import opened Wrappers
  import opened Values
  import opened Exprs
  import opened Scalars
  import opened Scopes
  import opened Relocation
  import opened Grouping
  import opened Joins
  import opened Plans
  import opened Conjuncts

  datatype Side = LeftSide | RightSide | Neither

  predicate AllResolve(refs: seq<ColumnRef>, scope: Scope) {
    forall i :: 0 <= i < |refs| ==> CanResolve(scope, refs[i])
  }

  predicate NoneResolves(refs: seq<ColumnRef>, scope: Scope) {
    forall i :: 0 <= i < |refs| ==> !CanResolve(scope, refs[i])
  }

  // The side that knows all the names, when the other knows none of them.
  function SideOf(e: Expr, left: Scope, right: Scope): Side {
    var refs := References(e);
    if refs == [] then Neither
    else if AllResolve(refs, left) && NoneResolves(refs, right) then LeftSide
    else if AllResolve(refs, right) && NoneResolves(refs, left) then RightSide
    else Neither
  }

  // --------------------------------------------------- names in a joined scope

  lemma {:induction false} NullableNames(scope: Scope, ref: ColumnRef)
    ensures Candidates(Nullable(scope), ref) == Candidates(scope, ref)
  {
    if scope != [] {
      var n := |scope| - 1;
      assert Nullable(scope)[..n] == Nullable(scope[..n]);
      NullableNames(scope[..n], ref);
    }
  }

  function Moved(ps: seq<nat>, k: nat): (r: seq<nat>)
    ensures |r| == |ps| && forall i :: 0 <= i < |ps| ==> r[i] == ps[i] + k
  {
    seq(|ps|, i requires 0 <= i < |ps| => ps[i] + k)
  }

  lemma {:induction false} ConcatNames(l: Scope, r: Scope, ref: ColumnRef)
    ensures Candidates(l + r, ref) == Candidates(l, ref) + Moved(Candidates(r, ref), |l|)
  {
    if r == [] {
      assert l + r == l;
    } else {
      var n := |r| - 1;
      ConcatNames(l, r[..n], ref);
      assert (l + r)[..|l| + n] == l + r[..n];
      assert (l + r)[|l| + n] == r[n];
    }
  }

  lemma {:induction false} JoinNames(kind: JoinType, l: Scope, r: Scope, ref: ColumnRef)
    ensures Candidates(JoinScope(kind, l, r), ref) == Candidates(l, ref) + Moved(Candidates(r, ref), |l|)
  {
    NullableNames(l, ref);
    NullableNames(r, ref);
    ConcatNames(if PreservesRight(kind) then Nullable(l) else l, if PreservesLeft(kind) then Nullable(r) else r, ref);
  }

  // A name only the left side knows is found at the same place in the joined row.
  lemma {:induction false} LeftName(kind: JoinType, l: Scope, r: Scope, ref: ColumnRef)
    requires CanResolve(JoinScope(kind, l, r), ref) && CanResolve(l, ref)
    ensures Resolve(JoinScope(kind, l, r), ref) == Resolve(l, ref)
  {
    JoinNames(kind, l, r, ref);
  }

  lemma {:induction false} RightName(kind: JoinType, l: Scope, r: Scope, ref: ColumnRef)
    requires CanResolve(JoinScope(kind, l, r), ref) && CanResolve(r, ref)
    ensures Resolve(JoinScope(kind, l, r), ref) == Ok(|l| + Resolve(r, ref).value)
  {
    JoinNames(kind, l, r, ref);
  }

  // ------------------------------------------------------ reading it on one side

  ghost predicate SideReads(rt: Runtime, e: Expr, s: Scope, t: Scope, row: Row, row': Row) {
    Alike(rt, Bind(rt, e, s), Bind(rt, e, t), row, row')
  }

  lemma {:induction false} SideKnows(e: Expr, l: Scope, r: Scope, ref: ColumnRef)
    requires ref in References(e)
    ensures SideOf(e, l, r) == LeftSide ==> CanResolve(l, ref)
    ensures SideOf(e, l, r) == RightSide ==> CanResolve(r, ref)
  {
  }

  lemma {:induction false} RightPlace(kind: JoinType, l: Scope, r: Scope, x: Row, y: Row, ref: ColumnRef)
    requires CanResolve(JoinScope(kind, l, r), ref) && CanResolve(r, ref) && |x| == |l| && |y| == |r|
    ensures Agrees(ref, JoinScope(kind, l, r), r, x + y, y)
  {
    RightName(kind, l, r, ref);
  }

  lemma {:induction false} LeftAgrees(rt: Runtime, kind: JoinType, e: Expr, l: Scope, r: Scope, x: Row, y: Row,
                                      ref: ColumnRef)
    requires Bind(rt, e, JoinScope(kind, l, r)).Ok? && SideOf(e, l, r) == LeftSide && |x| == |l| && ref in References(e)
    ensures Agrees(ref, JoinScope(kind, l, r), l, x + y, x)
  {
    BoundResolves(rt, e, JoinScope(kind, l, r), ref);
    LeftName(kind, l, r, ref);
  }

  lemma {:induction false} RightAgrees(rt: Runtime, kind: JoinType, e: Expr, l: Scope, r: Scope, x: Row, y: Row,
                                       ref: ColumnRef)
    requires Bind(rt, e, JoinScope(kind, l, r)).Ok? && SideOf(e, l, r) == RightSide && |x| == |l| && |y| == |r|
             && ref in References(e)
    ensures Agrees(ref, JoinScope(kind, l, r), r, x + y, y)
  {
    BoundResolves(rt, e, JoinScope(kind, l, r), ref);
    SideKnows(e, l, r, ref);
    RightPlace(kind, l, r, x, y, ref);
  }

  lemma {:induction false} LeftReads(rt: Runtime, kind: JoinType, e: Expr, l: Scope, r: Scope, x: Row, y: Row)
    requires NoSlots(e) && Bind(rt, e, JoinScope(kind, l, r)).Ok? && SideOf(e, l, r) == LeftSide && |x| == |l|
    ensures SideReads(rt, e, JoinScope(kind, l, r), l, x + y, x)
  {
    var joined := JoinScope(kind, l, r);
    forall ref | ref in References(e) ensures Agrees(ref, joined, l, x + y, x) {
      LeftAgrees(rt, kind, e, l, r, x, y, ref);
    }
    Relocated(rt, e, joined, l, x + y, x);
  }

  lemma {:induction false} RightReads(rt: Runtime, kind: JoinType, e: Expr, l: Scope, r: Scope, x: Row, y: Row)
    requires NoSlots(e) && Bind(rt, e, JoinScope(kind, l, r)).Ok? && SideOf(e, l, r) == RightSide && |x| == |l|
             && |y| == |r|
    ensures SideReads(rt, e, JoinScope(kind, l, r), r, x + y, y)
  {
    var joined := JoinScope(kind, l, r);
    forall ref | ref in References(e) ensures Agrees(ref, joined, r, x + y, y) {
      RightAgrees(rt, kind, e, l, r, x, y, ref);
    }
    Relocated(rt, e, joined, r, x + y, y);
  }

  lemma {:induction false} NullsTyped(scope: Scope)
    ensures TypedRow(Nulls(|scope|), scope)
  {
  }

  lemma {:induction false} JoinTyped(kind: JoinType, l: Scope, r: Scope, x: Row, y: Row)
    requires TypedRow(x, l) && TypedRow(y, r)
    ensures TypedRow(x + y, JoinScope(kind, l, r))
  {
    var scope, row := JoinScope(kind, l, r), x + y;
    forall i | 0 <= i < |row| ensures row[i] == Null || TypeOf(row[i]) == Some(scope[i].ty) {
      assert i < |x| ==> scope[i].ty == l[i].ty;
      assert i >= |x| ==> scope[i].ty == r[i - |x|].ty;
    }
  }

  // Safe over the join is safe on the side it belongs to.
  lemma {:induction false} LeftSafe(rt: Runtime, kind: JoinType, e: Expr, l: Scope, r: Scope)
    requires NoSlots(e) && Safe(rt, e, JoinScope(kind, l, r)) && SideOf(e, l, r) == LeftSide
    ensures Safe(rt, e, l)
  {
    var joined := JoinScope(kind, l, r);
    LeftReads(rt, kind, e, l, r, Nulls(|l|), Nulls(|r|));
    forall row | TypedRow(row, l) ensures Answers3(rt, Bind(rt, e, l).value, row) {
      NullsTyped(r);
      JoinTyped(kind, l, r, row, Nulls(|r|));
      assert Answers3(rt, Bind(rt, e, joined).value, row + Nulls(|r|));
      LeftReads(rt, kind, e, l, r, row, Nulls(|r|));
    }
  }

  lemma {:induction false} RightSafe(rt: Runtime, kind: JoinType, e: Expr, l: Scope, r: Scope)
    requires NoSlots(e) && Safe(rt, e, JoinScope(kind, l, r)) && SideOf(e, l, r) == RightSide
    ensures Safe(rt, e, r)
  {
    var joined := JoinScope(kind, l, r);
    RightReads(rt, kind, e, l, r, Nulls(|l|), Nulls(|r|));
    forall row | TypedRow(row, r) ensures Answers3(rt, Bind(rt, e, r).value, row) {
      NullsTyped(l);
      JoinTyped(kind, l, r, Nulls(|l|), row);
      assert Answers3(rt, Bind(rt, e, joined).value, Nulls(|l|) + row);
      RightReads(rt, kind, e, l, r, Nulls(|l|), row);
    }
  }
}
