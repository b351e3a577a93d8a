// Predicate pushdown: conjuncts sink towards the scans, as far as they may.
module Pushdown {
  import opened Wrappers
  import opened Exprs
  import opened Scopes
  import opened Joins
  import opened Plans
  import opened Conjuncts
  import opened Sides

  // ---------------------------------------------------------------- the rules

  datatype Bucket = ToLeft | ToRight | Above | Condition

  predicate IsInner(kind: JoinType) { kind == Inner || kind == Cross }

  // A WHERE conjunct may sink into a side this join does not pad.
  function WhereBucket(kind: JoinType, side: Side): Bucket {
    if side == LeftSide && !PreservesRight(kind) then ToLeft
    else if side == RightSide && !PreservesLeft(kind) then ToRight
    else if IsInner(kind) then Condition
    else Above
  }

  // An ON conjunct may sink into a side this join does not preserve.
  function OnBucket(kind: JoinType, side: Side): Bucket {
    if side == LeftSide && !PreservesLeft(kind) then ToLeft
    else if side == RightSide && !PreservesRight(kind) then ToRight
    else Condition
  }

  function BucketOf(kind: JoinType, isOn: bool, side: Side): Bucket {
    if isOn then OnBucket(kind, side) else WhereBucket(kind, side)
  }

  // The conjuncts of a list that go to one place, in order.
  function Dealt(kind: JoinType, isOn: bool, es: seq<Expr>, l: Scope, r: Scope, to: Bucket): seq<Expr> {
    if es == [] then []
    else
      var n := |es| - 1;
      Dealt(kind, isOn, es[..n], l, r, to) + (if BucketOf(kind, isOn, SideOf(es[n], l, r)) == to then [es[n]] else [])
  }

  function SplitOption(e: Option<Expr>): seq<Expr> { match e case None => [] case Some(x) => SplitConjunction(x) }

  function Share(kind: JoinType, pending: seq<Expr>, on: Option<Expr>, l: Scope, r: Scope, to: Bucket): seq<Expr> {
    Dealt(kind, false, pending, l, r, to) + Dealt(kind, true, SplitOption(on), l, r, to)
  }

  function Materialize(p: Plan, pending: seq<Expr>): Plan {
    match Combine(pending) case None => p case Some(e) => Filter(p, e)
  }

  // Every item is a bare column.
  predicate IsTransparent(items: seq<Item>) { forall i :: 0 <= i < |items| ==> IsColumn(items[i].expr) }

  function PushPredicates(p: Plan, pending: seq<Expr>): Plan
    decreases p
  {
    match p
    case Filter(input, cond) => PushPredicates(input, pending + SplitConjunction(cond))
    case Scan(source, filter) => Scan(source, Combine(SplitOption(filter) + pending))
    case Join(left, right, kind, on) =>
      (match (ScopeOf(left), ScopeOf(right))
       case (Some(l), Some(r)) =>
         Materialize(Join(PushPredicates(left, Share(kind, pending, on, l, r, ToLeft)),
           PushPredicates(right, Share(kind, pending, on, l, r, ToRight)),
                          kind, Combine(Share(kind, pending, on, l, r, Condition))),
                     Share(kind, pending, on, l, r, Above))
       case _ => Materialize(Join(PushPredicates(left, []), PushPredicates(right, []), kind, on), pending))
    case Projection(input, items) =>
      if IsTransparent(items) then Projection(PushPredicates(input, pending), items)
      else Materialize(Projection(PushPredicates(input, []), items), pending)
    case Sort(input, keys) => Sort(PushPredicates(input, pending), keys)
    case Aggregate(input, groupBy, calls) => Materialize(Aggregate(PushPredicates(input, []), groupBy, calls), pending)
    case Distinct(input) => Materialize(Distinct(PushPredicates(input, [])), pending)
    case Limit(input, count, offset) => Materialize(Limit(PushPredicates(input, []), count, offset), pending)
  }

  function Optimize(p: Plan): Plan { PushPredicates(p, []) }

  datatype Shares = Shares(toLeft: seq<Expr>, toRight: seq<Expr>, above: seq<Expr>, condition: seq<Expr>)

  function Put(s: Shares, b: Bucket, e: Expr): Shares {
    match b
    case ToLeft => s.(toLeft := s.toLeft + [e])
    case ToRight => s.(toRight := s.toRight + [e])
    case Above => s.(above := s.above + [e])
    case Condition => s.(condition := s.condition + [e])
  }

  ghost function DealtAll(kind: JoinType, isOn: bool, es: seq<Expr>, l: Scope, r: Scope): Shares {
    Shares(Dealt(kind, isOn, es, l, r, ToLeft), Dealt(kind, isOn, es, l, r, ToRight),
           Dealt(kind, isOn, es, l, r, Above), Dealt(kind, isOn, es, l, r, Condition))
  }

  ghost function Joint(a: Shares, b: Shares): Shares {
    Shares(a.toLeft + b.toLeft, a.toRight + b.toRight, a.above + b.above, a.condition + b.condition)
  }

  lemma {:induction false} DealtMore(kind: JoinType, isOn: bool, es: seq<Expr>, i: nat, l: Scope, r: Scope,
                                     start: Shares)
    requires i < |es|
    ensures Joint(start, DealtAll(kind, isOn, es[..i + 1], l, r))
         == Put(Joint(start, DealtAll(kind, isOn, es[..i], l, r)), BucketOf(kind, isOn, SideOf(es[i], l, r)), es[i])
  {
    assert es[..i + 1][..i] == es[..i];
  }

  method Deal(kind: JoinType, isOn: bool, es: seq<Expr>, l: Scope, r: Scope, start: Shares) returns (s: Shares)
    ensures s == Joint(start, DealtAll(kind, isOn, es, l, r))
  {
    s := start;
    for i := 0 to |es|
      invariant s == Joint(start, DealtAll(kind, isOn, es[..i], l, r))
    {
      DealtMore(kind, isOn, es, i, l, r, start);
      s := Put(s, BucketOf(kind, isOn, SideOf(es[i], l, r)), es[i]);
    }
    assert es[..|es|] == es;
  }

  // The two loops of `push_join` fill the four lists.
  method DealJoin(kind: JoinType, pending: seq<Expr>, on: Option<Expr>, l: Scope, r: Scope) returns (s: Shares)
    ensures s == Shares(Share(kind, pending, on, l, r, ToLeft), Share(kind, pending, on, l, r, ToRight),
                        Share(kind, pending, on, l, r, Above), Share(kind, pending, on, l, r, Condition))
  {
    s := Deal(kind, false, pending, l, r, Shares([], [], [], []));
    FromNothing(DealtAll(kind, false, pending, l, r));
    s := Deal(kind, true, SplitOption(on), l, r, s);
  }

  lemma {:induction false} FromNothing(a: Shares)
    ensures Joint(Shares([], [], [], []), a) == a
  {
    assert [] + a.toLeft == a.toLeft && [] + a.toRight == a.toRight && [] + a.above == a.above
           && [] + a.condition == a.condition;
  }
}
