// Filters above a join, traded for filters below it and a different join condition.
module JoinFilters {
  import opened Wrappers
  import opened Values
  import opened Joins

  function Where(rows: Relation, keep: Row -> bool): Relation {
    if rows == [] then []
    else
      var n := |rows| - 1;
      if keep(rows[n]) then Where(rows[..n], keep) + [rows[n]] else Where(rows[..n], keep)
  }

  lemma {:induction false} WhereMore(rows: Relation, row: Row, keep: Row -> bool)
    ensures Where(rows + [row], keep) == if keep(row) then Where(rows, keep) + [row] else Where(rows, keep)
  {
    assert (rows + [row])[..|rows|] == rows;
  }

  lemma {:induction false} WhereJoin(a: Relation, b: Relation, keep: Row -> bool)
    ensures Where(a + b, keep) == Where(a, keep) + Where(b, keep)
  {
    if b == [] {
      assert a + b == a;
    } else {
      var n := |b| - 1;
      WhereJoin(a, b[..n], keep);
      assert a + b == (a + b[..n]) + [b[n]];
      WhereMore(a + b[..n], b[n], keep);
    }
  }

  lemma {:induction false} WhereIn(rows: Relation, keep: Row -> bool)
    ensures forall r :: r in Where(rows, keep) <==> r in rows && keep(r)
  {
    if rows != [] {
      var n := |rows| - 1;
      WhereIn(rows[..n], keep);
      assert rows == rows[..n] + [rows[n]];
    }
  }

  lemma {:induction false} WhereNone(rows: Relation, keep: Row -> bool)
    requires forall r :: r in rows ==> !keep(r)
    ensures Where(rows, keep) == []
  {
    if rows != [] {
      var n := |rows| - 1;
      forall r | r in rows[..n] ensures !keep(r) {
        assert r in rows;
      }
      WhereNone(rows[..n], keep);
      assert rows[n] in rows;
    }
  }

  lemma {:induction false} WhereAll(rows: Relation, keep: Row -> bool)
    requires forall r :: r in rows ==> keep(r)
    ensures Where(rows, keep) == rows
  {
    if rows != [] {
      var n := |rows| - 1;
      forall r | r in rows[..n] ensures keep(r) {
        assert r in rows;
      }
      WhereAll(rows[..n], keep);
      assert rows[n] in rows;
      assert rows == rows[..n] + [rows[n]];
    }
  }

  lemma {:induction false} WhereTwice(rows: Relation, first: Row -> bool, second: Row -> bool, both: Row -> bool)
    requires forall r :: r in rows ==> both(r) == (first(r) && second(r))
    ensures Where(Where(rows, first), second) == Where(rows, both)
  {
    if rows != [] {
      var n := |rows| - 1;
      forall r | r in rows[..n] ensures both(r) == (first(r) && second(r)) {
        assert r in rows;
      }
      WhereTwice(rows[..n], first, second, both);
      assert rows[n] in rows;
      WhereMore(Where(rows[..n], first), rows[n], second);
    }
  }

  // ------------------------------------------------------------------ the trade

  // The condition and the filter before, against the two filters below, the condition and the
  // filter after.
  datatype Trade = Trade(on: Row -> bool, where_: Row -> bool, toLeft: Row -> bool, toRight: Row -> bool,
                         cond: Row -> bool, above: Row -> bool)

  ghost predicate PairOk(x: Trade, l: Row, r: Row) {
    (x.on(l + r) && x.where_(l + r)) == (x.toLeft(l) && x.toRight(r) && x.cond(l + r) && x.above(l + r))
  }

  // Matching must not depend on what was filtered out of a preserved left side.
  ghost predicate LeftOk(x: Trade, l: Row, r: Row) { x.on(l + r) == (x.toRight(r) && x.cond(l + r)) }

  ghost predicate RightOk(x: Trade, l: Row, r: Row) { x.on(l + r) == (x.toLeft(l) && x.cond(l + r)) }

  ghost predicate LeftPadOk(x: Trade, l: Row, width: nat) {
    x.where_(l + Nulls(width)) == (x.toLeft(l) && x.above(l + Nulls(width)))
  }

  ghost predicate RightPadOk(x: Trade, r: Row, width: nat) {
    x.where_(Nulls(width) + r) == (x.toRight(r) && x.above(Nulls(width) + r))
  }

  ghost predicate Fair(t: JoinType, x: Trade, outer: Relation, inner: Relation, outerWidth: nat, innerWidth: nat) {
    && (forall l, r {:trigger PairOk(x, l, r)} :: l in outer && r in inner ==> PairOk(x, l, r))
    && (PreservesLeft(t) ==> forall l, r {:trigger LeftOk(x, l, r)} :: l in outer && r in inner ==> LeftOk(x, l, r))
    && (PreservesLeft(t) ==> forall l {:trigger LeftPadOk(x, l, innerWidth)} :: l in outer ==>
      LeftPadOk(x, l, innerWidth))
    && (PreservesRight(t) ==> forall l, r {:trigger RightOk(x, l, r)} :: l in outer && r in inner ==> RightOk(x, l, r))
    && (PreservesRight(t) ==> forall r {:trigger RightPadOk(x, r, outerWidth)} :: r in inner ==>
      RightPadOk(x, r, outerWidth))
  }

  // ------------------------------------------------------------- one left row

  lemma {:induction false} MatchesMoreRow(l: Row, inner: Relation, r: Row, keep: Row -> bool)
    ensures Matches(l, inner + [r], keep) == if keep(l + r) then Matches(l, inner, keep) + [l + r]
            else Matches(l, inner, keep)
  {
    assert (inner + [r])[..|inner|] == inner;
    assert Matches(l, inner, keep) + [] == Matches(l, inner, keep);
  }

  lemma {:induction false} MatchesTraded(x: Trade, l: Row, inner: Relation)
    requires x.toLeft(l) && forall r {:trigger PairOk(x, l, r)} :: r in inner ==> PairOk(x, l, r)
    ensures Where(Matches(l, inner, x.on), x.where_) == Where(Matches(l, Where(inner, x.toRight), x.cond), x.above)
  {
    if inner != [] {
      var r, front := inner[|inner| - 1], inner[..|inner| - 1];
      assert inner == front + [r];
      assert PairOk(x, l, r);
      MatchesTraded(x, l, front);
      WhereMore(front, r, x.toRight);
      MatchesMoreRow(l, front, r, x.on);
      MatchesMoreRow(l, Where(front, x.toRight), r, x.cond);
      WhereMore(Matches(l, front, x.on), l + r, x.where_);
      WhereMore(Matches(l, Where(front, x.toRight), x.cond), l + r, x.above);
    }
  }

  lemma {:induction false} MatchesDropped(x: Trade, l: Row, inner: Relation)
    requires !x.toLeft(l) && forall r {:trigger PairOk(x, l, r)} :: r in inner ==> PairOk(x, l, r)
    ensures Where(Matches(l, inner, x.on), x.where_) == []
  {
    if inner != [] {
      var r, front := inner[|inner| - 1], inner[..|inner| - 1];
      assert inner == front + [r];
      assert PairOk(x, l, r);
      MatchesDropped(x, l, front);
      MatchesMoreRow(l, front, r, x.on);
      WhereMore(Matches(l, front, x.on), l + r, x.where_);
    }
  }

  lemma {:induction false} MatchesKept(x: Trade, l: Row, inner: Relation)
    requires forall r {:trigger LeftOk(x, l, r)} :: r in inner ==> LeftOk(x, l, r)
    ensures Matches(l, inner, x.on) == Matches(l, Where(inner, x.toRight), x.cond)
  {
    if inner != [] {
      var r, front := inner[|inner| - 1], inner[..|inner| - 1];
      assert inner == front + [r];
      assert LeftOk(x, l, r);
      MatchesKept(x, l, front);
      WhereMore(front, r, x.toRight);
      MatchesMoreRow(l, front, r, x.on);
      MatchesMoreRow(l, Where(front, x.toRight), r, x.cond);
    }
  }

  // The pad is that of the join; it matters only where left rows must survive.
  ghost predicate RowOk(x: Trade, l: Row, inner: Relation, pad: Option<nat>) {
    && (forall r {:trigger PairOk(x, l, r)} :: r in inner ==> PairOk(x, l, r))
    && (pad.Some? ==> forall r {:trigger LeftOk(x, l, r)} :: r in inner ==> LeftOk(x, l, r))
    && (pad.Some? ==> LeftPadOk(x, l, pad.value))
  }

  lemma {:induction false} WhereOne(row: Row, keep: Row -> bool)
    ensures Where([row], keep) == if keep(row) then [row] else []
  {
    WhereMore([], row, keep);
    assert [] + [row] == [row];
  }

  lemma {:induction false} RowTraded(x: Trade, l: Row, inner: Relation, pad: Option<nat>)
    requires RowOk(x, l, inner, pad)
    ensures Where(RowsFor(l, inner, x.on, pad), x.where_)
         == if x.toLeft(l) then Where(RowsFor(l, Where(inner, x.toRight), x.cond, pad), x.above) else []
  {
    if pad.Some? {
      MatchesKept(x, l, inner);
      WhereOne(l + Nulls(pad.value), x.where_);
      WhereOne(l + Nulls(pad.value), x.above);
    }
    if x.toLeft(l) {
      MatchesTraded(x, l, inner);
    } else {
      MatchesDropped(x, l, inner);
    }
  }

  lemma {:induction false} LeftPartMoreRow(outer: Relation, l: Row, inner: Relation, keep: Row -> bool,
                                           pad: Option<nat>)
    ensures LeftPart(outer + [l], inner, keep, pad) == LeftPart(outer, inner, keep, pad) + RowsFor(l, inner, keep, pad)
  {
    assert (outer + [l])[..|outer|] == outer;
  }

  lemma {:induction false} LeftPartTraded(x: Trade, outer: Relation, inner: Relation, pad: Option<nat>)
    requires forall l {:trigger RowOk(x, l, inner, pad)} :: l in outer ==> RowOk(x, l, inner, pad)
    ensures Where(LeftPart(outer, inner, x.on, pad), x.where_)
         == Where(LeftPart(Where(outer, x.toLeft), Where(inner, x.toRight), x.cond, pad), x.above)
  {
    if outer != [] {
      var l, front := outer[|outer| - 1], outer[..|outer| - 1];
      assert outer == front + [l];
      assert l in outer && RowOk(x, l, inner, pad);
      forall k | k in front ensures RowOk(x, k, inner, pad) {
        assert k in outer;
      }
      LeftPartTraded(x, front, inner, pad);
      LeftStep(x, front, l, inner, pad);
    }
  }

  lemma {:induction false} LeftStep(x: Trade, front: Relation, l: Row, inner: Relation, pad: Option<nat>)
    requires RowOk(x, l, inner, pad)
    requires Where(LeftPart(front, inner, x.on, pad), x.where_)
          == Where(LeftPart(Where(front, x.toLeft), Where(inner, x.toRight), x.cond, pad), x.above)
    ensures Where(LeftPart(front + [l], inner, x.on, pad), x.where_)
         == Where(LeftPart(Where(front + [l], x.toLeft), Where(inner, x.toRight), x.cond, pad), x.above)
  {
    var R := Where(inner, x.toRight);
    RowTraded(x, l, inner, pad);
    LeftPartMoreRow(front, l, inner, x.on, pad);
    WhereJoin(LeftPart(front, inner, x.on, pad), RowsFor(l, inner, x.on, pad), x.where_);
    WhereMore(front, l, x.toLeft);
    if x.toLeft(l) {
      LeftPartMoreRow(Where(front, x.toLeft), l, R, x.cond, pad);
      WhereJoin(LeftPart(Where(front, x.toLeft), R, x.cond, pad), RowsFor(l, R, x.cond, pad), x.above);
    } else {
      var done := Where(LeftPart(front, inner, x.on, pad), x.where_);
      assert done + [] == done;
    }
  }

  // ---------------------------------------------------- right rows left over

  lemma {:induction false} MatchedMoreRow(outer: Relation, l: Row, r: Row, keep: Row -> bool)
    ensures Matched(outer + [l], r, keep) <==> Matched(outer, r, keep) || keep(l + r)
  {
    assert (outer + [l])[..|outer|] == outer;
  }

  lemma {:induction false} MatchedTraded(x: Trade, outer: Relation, r: Row)
    requires x.toRight(r) && forall l {:trigger RightOk(x, l, r)} :: l in outer ==> RightOk(x, l, r)
    ensures Matched(outer, r, x.on) <==> Matched(Where(outer, x.toLeft), r, x.cond)
  {
    if outer != [] {
      var l, front := outer[|outer| - 1], outer[..|outer| - 1];
      assert outer == front + [l];
      assert l in outer && RightOk(x, l, r);
      MatchedTraded(x, front, r);
      MatchedMoreRow(front, l, r, x.on);
      WhereMore(front, l, x.toLeft);
      MatchedMoreRow(Where(front, x.toLeft), l, r, x.cond);
    }
  }

  lemma {:induction false} UnmatchedMoreRow(outer: Relation, inner: Relation, r: Row, keep: Row -> bool, width: nat)
    ensures Unmatched(outer, inner + [r], keep, width)
         == if Matched(outer, r, keep) then Unmatched(outer, inner, keep, width)
           else Unmatched(outer, inner, keep, width) + [Nulls(width) + r]
  {
    assert (inner + [r])[..|inner|] == inner;
    assert Unmatched(outer, inner, keep, width) + [] == Unmatched(outer, inner, keep, width);
  }

  ghost predicate RestOk(x: Trade, outer: Relation, r: Row, width: nat) {
    (forall l {:trigger RightOk(x, l, r)} :: l in outer ==> RightOk(x, l, r)) && RightPadOk(x, r, width)
  }

  lemma {:induction false} UnmatchedTraded(x: Trade, outer: Relation, inner: Relation, width: nat)
    requires forall r {:trigger RestOk(x, outer, r, width)} :: r in inner ==> RestOk(x, outer, r, width)
    ensures Where(Unmatched(outer, inner, x.on, width), x.where_)
         == Where(Unmatched(Where(outer, x.toLeft), Where(inner, x.toRight), x.cond, width), x.above)
  {
    if inner != [] {
      var r, front := inner[|inner| - 1], inner[..|inner| - 1];
      assert inner == front + [r];
      assert r in inner && RestOk(x, outer, r, width);
      forall k | k in front ensures RestOk(x, outer, k, width) {
        assert k in inner;
      }
      UnmatchedTraded(x, outer, front, width);
      UnmatchedStep(x, outer, front, r, width);
    }
  }

  lemma {:induction false} UnmatchedStep(x: Trade, outer: Relation, front: Relation, r: Row, width: nat)
    requires RestOk(x, outer, r, width)
    requires Where(Unmatched(outer, front, x.on, width), x.where_)
          == Where(Unmatched(Where(outer, x.toLeft), Where(front, x.toRight), x.cond, width), x.above)
    ensures Where(Unmatched(outer, front + [r], x.on, width), x.where_)
         == Where(Unmatched(Where(outer, x.toLeft), Where(front + [r], x.toRight), x.cond, width), x.above)
  {
    var L := Where(outer, x.toLeft);
    UnmatchedMoreRow(outer, front, r, x.on, width);
    WhereMore(Unmatched(outer, front, x.on, width), Nulls(width) + r, x.where_);
    WhereMore(front, r, x.toRight);
    if x.toRight(r) {
      MatchedTraded(x, outer, r);
      UnmatchedMoreRow(L, Where(front, x.toRight), r, x.cond, width);
      WhereMore(Unmatched(L, Where(front, x.toRight), x.cond, width), Nulls(width) + r, x.above);
    }
  }

  // -------------------------------------------------------------- the whole join

  // A fair trade leaves the rows, and their order, as they were.
  lemma {:induction false} JoinTraded(t: JoinType, x: Trade, outer: Relation, inner: Relation, outerWidth: nat,
                                      innerWidth: nat)
    requires Fair(t, x, outer, inner, outerWidth, innerWidth)
    ensures Where(Joined(t, outer, inner, x.on, outerWidth, innerWidth), x.where_)
         == Where(Joined(t, Where(outer, x.toLeft), Where(inner, x.toRight), x.cond, outerWidth, innerWidth), x.above)
  {
    var pad := if PreservesLeft(t) then Some(innerWidth) else None;
    var L, R := Where(outer, x.toLeft), Where(inner, x.toRight);
    forall l | l in outer ensures RowOk(x, l, inner, pad) {
      assert PreservesLeft(t) ==> LeftPadOk(x, l, innerWidth);
    }
    LeftPartTraded(x, outer, inner, pad);
    if PreservesRight(t) {
      forall r | r in inner ensures RestOk(x, outer, r, outerWidth) {
        assert RightPadOk(x, r, outerWidth);
      }
      UnmatchedTraded(x, outer, inner, outerWidth);
      WhereJoin(LeftPart(outer, inner, x.on, pad), Unmatched(outer, inner, x.on, outerWidth), x.where_);
      WhereJoin(LeftPart(L, R, x.cond, pad), Unmatched(L, R, x.cond, outerWidth), x.above);
    } else {
      assert LeftPart(outer, inner, x.on, pad) + [] == LeftPart(outer, inner, x.on, pad);
      assert LeftPart(L, R, x.cond, pad) + [] == LeftPart(L, R, x.cond, pad);
    }
  }
}
