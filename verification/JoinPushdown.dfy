// Dealing the conjuncts of a join out to its sides is a fair trade.
module JoinPushdown {
  import opened Wrappers
  import opened Values
  import opened Exprs
  import opened Scalars
  import opened Scopes
  import opened Relocation
  import opened Joins
  import opened JoinFilters
  import opened Plans
  import opened Conjuncts
  import opened Sides
  import opened Pushdown

  // A conjunct names columns or places, not both: only USING names places, and only places.
  ghost predicate Pure(e: Expr) { NoSlots(e) || References(e) == [] }

  ghost predicate Pending(rt: Runtime, es: seq<Expr>, scope: Scope) {
    AllSafe(rt, es, scope) && forall e {:trigger Pure(e)} :: e in es ==> Pure(e)
  }

  lemma {:induction false} PendingPart(rt: Runtime, es: seq<Expr>, some: seq<Expr>, scope: Scope)
    requires Pending(rt, es, scope) && forall e :: e in some ==> e in es
    ensures Pending(rt, some, scope)
  {
    forall e | e in some ensures Safe(rt, e, scope) && Pure(e) {
      assert e in es;
    }
  }

  lemma {:induction false} PendingBoth(rt: Runtime, a: seq<Expr>, b: seq<Expr>, scope: Scope)
    ensures Pending(rt, a + b, scope) <==> Pending(rt, a, scope) && Pending(rt, b, scope)
  {
    SafeBoth(rt, a, b, scope);
    if Pending(rt, a + b, scope) {
      forall e | e in a ensures Pure(e) {
        assert e in a + b;
      }
      forall e | e in b ensures Pure(e) {
        assert e in a + b;
      }
    }
  }

  // ------------------------------------------------------------------- dealing

  lemma {:induction false} DealtIn(kind: JoinType, isOn: bool, es: seq<Expr>, l: Scope, r: Scope, to: Bucket)
    ensures forall e :: e in Dealt(kind, isOn, es, l, r, to) <==> e in es && BucketOf(kind, isOn, SideOf(e, l, r)) == to
  {
    if es != [] {
      var n := |es| - 1;
      DealtIn(kind, isOn, es[..n], l, r, to);
      assert es == es[..n] + [es[n]];
    }
  }

  lemma {:induction false} NeverDealt(kind: JoinType, isOn: bool, es: seq<Expr>, l: Scope, r: Scope, to: Bucket)
    requires forall side :: BucketOf(kind, isOn, side) != to
    ensures Dealt(kind, isOn, es, l, r, to) == []
  {
    if es != [] {
      NeverDealt(kind, isOn, es[..|es| - 1], l, r, to);
      assert BucketOf(kind, isOn, SideOf(es[|es| - 1], l, r)) != to;
    }
  }

  // Every conjunct goes to exactly one place.
  lemma {:induction false} DealtHold(rt: Runtime, kind: JoinType, isOn: bool, es: seq<Expr>, l: Scope, r: Scope,
                                     scope: Scope, row: Row)
    ensures AllHold(rt, es, scope, row) <==>
            && AllHold(rt, Dealt(kind, isOn, es, l, r, ToLeft), scope, row)
              && AllHold(rt, Dealt(kind, isOn, es, l, r, ToRight), scope, row)
            && AllHold(rt, Dealt(kind, isOn, es, l, r, Above), scope, row)
              && AllHold(rt, Dealt(kind, isOn, es, l, r, Condition), scope, row)
  {
    DealtIn(kind, isOn, es, l, r, ToLeft);
    DealtIn(kind, isOn, es, l, r, ToRight);
    DealtIn(kind, isOn, es, l, r, Above);
    DealtIn(kind, isOn, es, l, r, Condition);
    if AllHold(rt, Dealt(kind, isOn, es, l, r, ToLeft), scope, row)
      && AllHold(rt, Dealt(kind, isOn, es, l, r, ToRight), scope, row)
       && AllHold(rt, Dealt(kind, isOn, es, l, r, Above), scope, row)
         && AllHold(rt, Dealt(kind, isOn, es, l, r, Condition), scope, row) {
      forall e | e in es ensures Holds(rt, e, scope, row) {
        assert e in Dealt(kind, isOn, es, l, r, BucketOf(kind, isOn, SideOf(e, l, r)));
      }
    }
    if AllHold(rt, es, scope, row) {
      forall to, e | e in Dealt(kind, isOn, es, l, r, to)
        && to in {ToLeft, ToRight, Above, Condition} ensures Holds(rt, e, scope, row) {
        assert e in es;
      }
    }
  }

  // ------------------------------------------------------ conjuncts on one side

  ghost predicate OnSide(rt: Runtime, es: seq<Expr>, side: Side, joined: Scope, l: Scope, r: Scope) {
    forall e {:trigger Belongs(rt, e, side, joined, l, r)} :: e in es ==> Belongs(rt, e, side, joined, l, r)
  }

  ghost predicate Belongs(rt: Runtime, e: Expr, side: Side, joined: Scope, l: Scope, r: Scope) {
    NoSlots(e) && Safe(rt, e, joined) && SideOf(e, l, r) == side
  }

  lemma {:induction false} BelongsTo(rt: Runtime, e: Expr, side: Side, joined: Scope, l: Scope, r: Scope)
    requires Pure(e) && Safe(rt, e, joined) && SideOf(e, l, r) == side && side != Neither
    ensures Belongs(rt, e, side, joined, l, r)
  {
  }

  lemma {:induction false} DealtLeft(rt: Runtime, kind: JoinType, isOn: bool, es: seq<Expr>, l: Scope, r: Scope)
    requires Pending(rt, es, JoinScope(kind, l, r))
    ensures OnSide(rt, Dealt(kind, isOn, es, l, r, ToLeft), LeftSide, JoinScope(kind, l, r), l, r)
    ensures OnSide(rt, Dealt(kind, isOn, es, l, r, ToRight), RightSide, JoinScope(kind, l, r), l, r)
  {
    DealtIn(kind, isOn, es, l, r, ToLeft);
    DealtIn(kind, isOn, es, l, r, ToRight);
    var joined := JoinScope(kind, l, r);
    forall e | e in Dealt(kind, isOn, es, l, r, ToLeft) ensures Belongs(rt, e, LeftSide, joined, l, r) {
      assert Pure(e) && Safe(rt, e, joined);
      BelongsTo(rt, e, LeftSide, joined, l, r);
    }
    forall e | e in Dealt(kind, isOn, es, l, r, ToRight) ensures Belongs(rt, e, RightSide, joined, l, r) {
      assert Pure(e) && Safe(rt, e, joined);
      BelongsTo(rt, e, RightSide, joined, l, r);
    }
  }

  lemma {:induction false} LeftHolds(rt: Runtime, kind: JoinType, es: seq<Expr>, l: Scope, r: Scope, x: Row, y: Row)
    requires OnSide(rt, es, LeftSide, JoinScope(kind, l, r), l, r) && |x| == |l|
    ensures AllHold(rt, es, JoinScope(kind, l, r), x + y) <==> AllHold(rt, es, l, x)
  {
    var joined := JoinScope(kind, l, r);
    forall e | e in es ensures Holds(rt, e, joined, x + y) <==> Holds(rt, e, l, x) {
      assert Belongs(rt, e, LeftSide, joined, l, r);
      LeftReads(rt, kind, e, l, r, x, y);
    }
  }

  lemma {:induction false} RightHolds(rt: Runtime, kind: JoinType, es: seq<Expr>, l: Scope, r: Scope, x: Row, y: Row)
    requires OnSide(rt, es, RightSide, JoinScope(kind, l, r), l, r) && |x| == |l| && |y| == |r|
    ensures AllHold(rt, es, JoinScope(kind, l, r), x + y) <==> AllHold(rt, es, r, y)
  {
    var joined := JoinScope(kind, l, r);
    forall e | e in es ensures Holds(rt, e, joined, x + y) <==> Holds(rt, e, r, y) {
      assert Belongs(rt, e, RightSide, joined, l, r);
      RightReads(rt, kind, e, l, r, x, y);
    }
  }

  lemma {:induction false} LeftPending(rt: Runtime, kind: JoinType, es: seq<Expr>, l: Scope, r: Scope)
    requires OnSide(rt, es, LeftSide, JoinScope(kind, l, r), l, r)
    ensures Pending(rt, es, l)
  {
    forall e | e in es ensures Safe(rt, e, l) && Pure(e) {
      assert Belongs(rt, e, LeftSide, JoinScope(kind, l, r), l, r);
      LeftSafe(rt, kind, e, l, r);
    }
  }

  lemma {:induction false} RightPending(rt: Runtime, kind: JoinType, es: seq<Expr>, l: Scope, r: Scope)
    requires OnSide(rt, es, RightSide, JoinScope(kind, l, r), l, r)
    ensures Pending(rt, es, r)
  {
    forall e | e in es ensures Safe(rt, e, r) && Pure(e) {
      assert Belongs(rt, e, RightSide, JoinScope(kind, l, r), l, r);
      RightSafe(rt, kind, e, l, r);
    }
  }

  // --------------------------------------------------------------- the trade made

  ghost function TradeOf(rt: Runtime, kind: JoinType, pending: seq<Expr>, on: Option<Expr>, l: Scope, r: Scope): Trade {
    var joined := JoinScope(kind, l, r);
    Trade(Passing(rt, SplitOption(on), joined), Passing(rt, pending, joined),
          Passing(rt, Share(kind, pending, on, l, r, ToLeft), l),
            Passing(rt, Share(kind, pending, on, l, r, ToRight), r),
          Passing(rt, Share(kind, pending, on, l, r, Condition), joined),
            Passing(rt, Share(kind, pending, on, l, r, Above), joined))
  }

  // What each list dealt out says of a joined row and of its halves.
  ghost predicate PiecesHold(rt: Runtime, kind: JoinType, isOn: bool, es: seq<Expr>, l: Scope, r: Scope, x: Row,
                             y: Row) {
    var joined := JoinScope(kind, l, r);
    AllHold(rt, es, joined, x + y) ==
      (AllHold(rt, Dealt(kind, isOn, es, l, r, ToLeft), l, x) && AllHold(rt, Dealt(kind, isOn, es, l, r, ToRight), r, y)
       && AllHold(rt, Dealt(kind, isOn, es, l, r, Above), joined, x + y)
         && AllHold(rt, Dealt(kind, isOn, es, l, r, Condition), joined, x + y))
  }

  lemma {:induction false} Pieces(rt: Runtime, kind: JoinType, isOn: bool, es: seq<Expr>, l: Scope, r: Scope, x: Row,
                                  y: Row)
    requires Pending(rt, es, JoinScope(kind, l, r)) && |x| == |l| && |y| == |r|
    ensures PiecesHold(rt, kind, isOn, es, l, r, x, y)
  {
    var joined := JoinScope(kind, l, r);
    DealtHold(rt, kind, isOn, es, l, r, joined, x + y);
    DealtLeft(rt, kind, isOn, es, l, r);
    LeftHolds(rt, kind, Dealt(kind, isOn, es, l, r, ToLeft), l, r, x, y);
    RightHolds(rt, kind, Dealt(kind, isOn, es, l, r, ToRight), l, r, x, y);
  }

  lemma {:induction false} ShareHolds(rt: Runtime, kind: JoinType, pending: seq<Expr>, on: Option<Expr>, l: Scope,
                                      r: Scope, to: Bucket, scope: Scope, row: Row)
    ensures AllHold(rt, Share(kind, pending, on, l, r, to), scope, row) <==>
            AllHold(rt, Dealt(kind, false, pending, l, r, to), scope, row)
              && AllHold(rt, Dealt(kind, true, SplitOption(on), l, r, to), scope, row)
  {
    HoldBoth(rt, Dealt(kind, false, pending, l, r, to), Dealt(kind, true, SplitOption(on), l, r, to), scope, row);
  }

  lemma {:induction false} NothingHolds(rt: Runtime, scope: Scope, row: Row)
    ensures AllHold(rt, [], scope, row)
  {
  }

  lemma {:induction false} SharesHold(rt: Runtime, kind: JoinType, pending: seq<Expr>, on: Option<Expr>, l: Scope,
                                      r: Scope, x: Row, y: Row)
    ensures var joined := JoinScope(kind, l, r);
            && (AllHold(rt, Share(kind, pending, on, l, r, ToLeft), l, x) <==>
                AllHold(rt, Dealt(kind, false, pending, l, r, ToLeft), l, x)
                  && AllHold(rt, Dealt(kind, true, SplitOption(on), l, r, ToLeft), l, x))
            && (AllHold(rt, Share(kind, pending, on, l, r, ToRight), r, y) <==>
                AllHold(rt, Dealt(kind, false, pending, l, r, ToRight), r, y)
                  && AllHold(rt, Dealt(kind, true, SplitOption(on), l, r, ToRight), r, y))
            && (AllHold(rt, Share(kind, pending, on, l, r, Above), joined, x + y) <==>
                AllHold(rt, Dealt(kind, false, pending, l, r, Above), joined, x + y)
                  && AllHold(rt, Dealt(kind, true, SplitOption(on), l, r, Above), joined, x + y))
            && (AllHold(rt, Share(kind, pending, on, l, r, Condition), joined, x + y) <==>
                AllHold(rt, Dealt(kind, false, pending, l, r, Condition), joined, x + y)
                  && AllHold(rt, Dealt(kind, true, SplitOption(on), l, r, Condition), joined, x + y))
  {
    var joined := JoinScope(kind, l, r);
    ShareHolds(rt, kind, pending, on, l, r, ToLeft, l, x);
    ShareHolds(rt, kind, pending, on, l, r, ToRight, r, y);
    ShareHolds(rt, kind, pending, on, l, r, Above, joined, x + y);
    ShareHolds(rt, kind, pending, on, l, r, Condition, joined, x + y);
  }

  lemma {:induction false} PairFair(rt: Runtime, kind: JoinType, pending: seq<Expr>, on: Option<Expr>, l: Scope,
                                    r: Scope, x: Row, y: Row)
    requires Pending(rt, pending, JoinScope(kind, l, r)) && Pending(rt, SplitOption(on), JoinScope(kind, l, r))
             && |x| == |l| && |y| == |r|
    ensures PairOk(TradeOf(rt, kind, pending, on, l, r), x, y)
  {
    Pieces(rt, kind, false, pending, l, r, x, y);
    Pieces(rt, kind, true, SplitOption(on), l, r, x, y);
    SharesHold(rt, kind, pending, on, l, r, x, y);
  }

  lemma {:induction false} LeftNever(kind: JoinType, pending: seq<Expr>, on: Option<Expr>, l: Scope, r: Scope)
    requires PreservesLeft(kind)
    ensures Dealt(kind, true, SplitOption(on), l, r, ToLeft) == []
            && Dealt(kind, true, SplitOption(on), l, r, Above) == []
    ensures Dealt(kind, false, pending, l, r, ToRight) == [] && Dealt(kind, false, pending, l, r, Condition) == []
  {
    NeverDealt(kind, true, SplitOption(on), l, r, ToLeft);
    NeverDealt(kind, true, SplitOption(on), l, r, Above);
    NeverDealt(kind, false, pending, l, r, ToRight);
    NeverDealt(kind, false, pending, l, r, Condition);
  }

  lemma {:induction false} RightNever(kind: JoinType, pending: seq<Expr>, on: Option<Expr>, l: Scope, r: Scope)
    requires PreservesRight(kind)
    ensures Dealt(kind, true, SplitOption(on), l, r, ToRight) == []
            && Dealt(kind, true, SplitOption(on), l, r, Above) == []
    ensures Dealt(kind, false, pending, l, r, ToLeft) == [] && Dealt(kind, false, pending, l, r, Condition) == []
  {
    NeverDealt(kind, true, SplitOption(on), l, r, ToRight);
    NeverDealt(kind, true, SplitOption(on), l, r, Above);
    NeverDealt(kind, false, pending, l, r, ToLeft);
    NeverDealt(kind, false, pending, l, r, Condition);
  }

  // A preserved left side: no ON conjunct leaves it, and no WHERE conjunct enters the right.
  lemma {:induction false} LeftFair(rt: Runtime, kind: JoinType, pending: seq<Expr>, on: Option<Expr>, l: Scope,
                                    r: Scope, x: Row, y: Row)
    requires PreservesLeft(kind) && Pending(rt, SplitOption(on), JoinScope(kind, l, r)) && |x| == |l| && |y| == |r|
    ensures LeftOk(TradeOf(rt, kind, pending, on, l, r), x, y)
  {
    Pieces(rt, kind, true, SplitOption(on), l, r, x, y);
    SharesHold(rt, kind, pending, on, l, r, x, y);
    LeftNever(kind, pending, on, l, r);
  }

  lemma {:induction false} LeftPadFair(rt: Runtime, kind: JoinType, pending: seq<Expr>, on: Option<Expr>, l: Scope,
                                       r: Scope, x: Row)
    requires PreservesLeft(kind) && Pending(rt, pending, JoinScope(kind, l, r)) && |x| == |l|
    ensures LeftPadOk(TradeOf(rt, kind, pending, on, l, r), x, |r|)
  {
    var y := Nulls(|r|);
    Pieces(rt, kind, false, pending, l, r, x, y);
    SharesHold(rt, kind, pending, on, l, r, x, y);
    LeftNever(kind, pending, on, l, r);
  }

  lemma {:induction false} RightFair(rt: Runtime, kind: JoinType, pending: seq<Expr>, on: Option<Expr>, l: Scope,
                                     r: Scope, x: Row, y: Row)
    requires PreservesRight(kind) && Pending(rt, SplitOption(on), JoinScope(kind, l, r)) && |x| == |l| && |y| == |r|
    ensures RightOk(TradeOf(rt, kind, pending, on, l, r), x, y)
  {
    Pieces(rt, kind, true, SplitOption(on), l, r, x, y);
    SharesHold(rt, kind, pending, on, l, r, x, y);
    RightNever(kind, pending, on, l, r);
  }

  lemma {:induction false} RightPadFair(rt: Runtime, kind: JoinType, pending: seq<Expr>, on: Option<Expr>, l: Scope,
                                        r: Scope, y: Row)
    requires PreservesRight(kind) && Pending(rt, pending, JoinScope(kind, l, r)) && |y| == |r|
    ensures RightPadOk(TradeOf(rt, kind, pending, on, l, r), y, |l|)
  {
    var x := Nulls(|l|);
    Pieces(rt, kind, false, pending, l, r, x, y);
    SharesHold(rt, kind, pending, on, l, r, x, y);
    RightNever(kind, pending, on, l, r);
  }

  lemma {:induction false} TradeFair(rt: Runtime, kind: JoinType, pending: seq<Expr>, on: Option<Expr>, l: Scope,
                                     r: Scope, outer: Relation, inner: Relation)
    requires Pending(rt, pending, JoinScope(kind, l, r)) && Pending(rt, SplitOption(on), JoinScope(kind, l, r))
    requires (forall x :: x in outer ==> |x| == |l|) && (forall y :: y in inner ==> |y| == |r|)
    ensures Fair(kind, TradeOf(rt, kind, pending, on, l, r), outer, inner, |l|, |r|)
  {
    var t := TradeOf(rt, kind, pending, on, l, r);
    forall x, y | x in outer && y in inner ensures PairOk(t, x, y) {
      PairFair(rt, kind, pending, on, l, r, x, y);
    }
    if PreservesLeft(kind) {
      forall x, y | x in outer && y in inner ensures LeftOk(t, x, y) {
        LeftFair(rt, kind, pending, on, l, r, x, y);
      }
      forall x | x in outer ensures LeftPadOk(t, x, |r|) {
        LeftPadFair(rt, kind, pending, on, l, r, x);
      }
    }
    if PreservesRight(kind) {
      forall x, y | x in outer && y in inner ensures RightOk(t, x, y) {
        RightFair(rt, kind, pending, on, l, r, x, y);
      }
      forall y | y in inner ensures RightPadOk(t, y, |l|) {
        RightPadFair(rt, kind, pending, on, l, r, y);
      }
    }
  }
}
