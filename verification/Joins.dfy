// The five joins: what they are, and the one loop that computes them.
module Joins {
  import opened Wrappers
  import opened Values
  import opened Exprs
  import opened Scalars
  import opened Evaluation

  datatype JoinType = Inner | Left | Right | Full | Cross

  // Rows of this side survive without a match.
  predicate PreservesLeft(t: JoinType) { t == Left || t == Full }

  predicate PreservesRight(t: JoinType) { t == Right || t == Full }

  type Relation = seq<Row>

  function Nulls(n: nat): (r: Row)
    ensures |r| == n && forall i :: 0 <= i < n ==> r[i] == Null
  {
    seq(n, _ => Null)
  }

  // ------------------------------------------------------------ what a join is

  function Matches(l: Row, inner: Relation, keep: Row -> bool): Relation {
    if inner == [] then []
    else
      var n := |inner| - 1;
      Matches(l, inner[..n], keep) + (if keep(l + inner[n]) then [l + inner[n]] else [])
  }

  // One left row: its matches in order, or itself padded once if it must survive.
  function RowsFor(l: Row, inner: Relation, keep: Row -> bool, pad: Option<nat>): Relation {
    var found := Matches(l, inner, keep);
    if found == [] && pad.Some? then [l + Nulls(pad.value)] else found
  }

  function LeftPart(outer: Relation, inner: Relation, keep: Row -> bool, pad: Option<nat>): Relation {
    if outer == [] then []
    else
      var n := |outer| - 1;
      LeftPart(outer[..n], inner, keep, pad) + RowsFor(outer[n], inner, keep, pad)
  }

  predicate Matched(outer: Relation, r: Row, keep: Row -> bool) {
    outer != [] && (Matched(outer[..|outer| - 1], r, keep) || keep(outer[|outer| - 1] + r))
  }

  // The right rows nothing matched, padded.
  function Unmatched(outer: Relation, inner: Relation, keep: Row -> bool, width: nat): Relation {
    if inner == [] then []
    else
      var n := |inner| - 1;
      Unmatched(outer, inner[..n], keep, width)
        + (if Matched(outer, inner[n], keep) then [] else [Nulls(width) + inner[n]])
  }

  function Joined(t: JoinType, outer: Relation, inner: Relation, keep: Row -> bool, outerWidth: nat,
                  innerWidth: nat): Relation {
    LeftPart(outer, inner, keep, if PreservesLeft(t) then Some(innerWidth) else None)
    + (if PreservesRight(t) then Unmatched(outer, inner, keep, outerWidth) else [])
  }

  // ------------------------------------------------------------------ the loop

  function Test(rt: Runtime, on: Option<Phys>, row: Row): Result<bool, EvalError> {
    match on case None => Ok(true) case Some(e) => Keeps(rt, e, row)
  }

  ghost function KeptBy(rt: Runtime, on: Option<Phys>): Row -> bool { row => Test(rt, on, row) == Ok(true) }

  function FirstWidth(rows: Relation): nat { if rows == [] then 0 else |rows[0]| }

  // No pair before this one, in nested order, raised an error.
  ghost predicate CleanBefore(rt: Runtime, on: Option<Phys>, outer: Relation, inner: Relation, i: nat, j: nat)
    requires i <= |outer| && j <= |inner|
  {
    && (forall a, b {:trigger Clean(rt, on, outer[a], inner[b])} :: 0 <= a < i && 0 <= b < |inner| ==>
      Clean(rt, on, outer[a], inner[b]))
    && (i < |outer| ==> forall b {:trigger Clean(rt, on, outer[i], inner[b])} :: 0 <= b < j ==>
      Clean(rt, on, outer[i], inner[b]))
  }

  ghost predicate Clean(rt: Runtime, on: Option<Phys>, l: Row, r: Row) { Test(rt, on, l + r).Ok? }

  lemma {:induction false} MatchesMore(l: Row, inner: Relation, keep: Row -> bool, j: nat)
    requires j < |inner|
    ensures Matches(l, inner[..j + 1], keep) == Matches(l, inner[..j], keep)
            + (if keep(l + inner[j]) then [l + inner[j]] else [])
  {
    assert inner[..j + 1][..j] == inner[..j];
  }

  lemma {:induction false} LeftPartMore(outer: Relation, inner: Relation, keep: Row -> bool, pad: Option<nat>, i: nat)
    requires i < |outer|
    ensures LeftPart(outer[..i + 1], inner, keep, pad) == LeftPart(outer[..i], inner, keep, pad)
            + RowsFor(outer[i], inner, keep, pad)
  {
    assert outer[..i + 1][..i] == outer[..i];
  }

  lemma {:induction false} MatchedMore(outer: Relation, r: Row, keep: Row -> bool, i: nat)
    requires i < |outer|
    ensures Matched(outer[..i + 1], r, keep) <==> Matched(outer[..i], r, keep) || keep(outer[i] + r)
  {
    assert outer[..i + 1][..i] == outer[..i];
  }

  lemma {:induction false} UnmatchedMore(outer: Relation, inner: Relation, keep: Row -> bool, width: nat, j: nat)
    requires j < |inner|
    ensures Unmatched(outer, inner[..j + 1], keep, width)
         == Unmatched(outer, inner[..j], keep, width)
           + (if Matched(outer, inner[j], keep) then [] else [Nulls(width) + inner[j]])
  {
    assert inner[..j + 1][..j] == inner[..j];
  }

  // Which inner rows are flagged after `i` outer rows, and one more over the first `j`.
  ghost predicate FlaggedTo(flags: seq<bool>, outer: Relation, inner: Relation, keep: Row -> bool, i: nat, j: nat)
    requires j <= |inner| && (if j == 0 then i <= |outer| else i < |outer|)
  {
    && |flags| == |inner|
    && (forall k {:trigger flags[k]} :: 0 <= k < j ==> (flags[k] <==> Matched(outer[..i + 1], inner[k], keep)))
    && (forall k {:trigger flags[k]} :: j <= k < |inner| ==> (flags[k] <==> Matched(outer[..i], inner[k], keep)))
  }

  lemma {:induction false} FlagNext(flags: seq<bool>, outer: Relation, inner: Relation, keep: Row -> bool, i: nat,
                                    j: nat)
    requires i < |outer| && j < |inner| && FlaggedTo(flags, outer, inner, keep, i, j)
    ensures FlaggedTo(if keep(outer[i] + inner[j]) then flags[j := true] else flags, outer, inner, keep, i, j + 1)
  {
    MatchedMore(outer, inner[j], keep, i);
  }

  lemma {:induction false} FlagRow(flags: seq<bool>, outer: Relation, inner: Relation, keep: Row -> bool, i: nat)
    requires i < |outer| && FlaggedTo(flags, outer, inner, keep, i, |inner|)
    ensures FlaggedTo(flags, outer, inner, keep, i + 1, 0)
  {
  }

  lemma {:induction false} CleanNext(rt: Runtime, on: Option<Phys>, outer: Relation, inner: Relation, i: nat, j: nat)
    requires i < |outer| && j < |inner| && CleanBefore(rt, on, outer, inner, i, j) && Clean(rt, on, outer[i], inner[j])
    ensures CleanBefore(rt, on, outer, inner, i, j + 1)
  {
  }

  lemma {:induction false} CleanRow(rt: Runtime, on: Option<Phys>, outer: Relation, inner: Relation, i: nat)
    requires i < |outer| && CleanBefore(rt, on, outer, inner, i, |inner|)
    ensures CleanBefore(rt, on, outer, inner, i + 1, 0)
  {
  }

  // One pass over the inner rows for a single outer row.
  method Probe(rt: Runtime, on: Option<Phys>, outer: Relation, i: nat, inner: Relation, matched: array<bool>)
    returns (r: Result<Relation, EvalError>, ghost at: nat)
    requires i < |outer| && CleanBefore(rt, on, outer, inner, i, 0)
             && FlaggedTo(matched[..], outer, inner, KeptBy(rt, on), i, 0)
    modifies matched
    ensures r.Err? ==>
            at < |inner| && CleanBefore(rt, on, outer, inner, i, at)
              && Test(rt, on, outer[i] + inner[at]) == Err(r.error)
    ensures r.Ok? ==> CleanBefore(rt, on, outer, inner, i + 1, 0) && r.value == Matches(outer[i], inner, KeptBy(rt, on))
    ensures r.Ok? ==> FlaggedTo(matched[..], outer, inner, KeptBy(rt, on), i + 1, 0)
  {
    ghost var keep := KeptBy(rt, on);
    var found: Relation := [];
    for j := 0 to |inner|
      invariant CleanBefore(rt, on, outer, inner, i, j) && found == Matches(outer[i], inner[..j], keep)
      invariant FlaggedTo(matched[..], outer, inner, keep, i, j)
    {
      var joined := outer[i] + inner[j];
      var kept := Test(rt, on, joined);
      if kept.Err? {
        return Err(kept.error), j;
      }
      MatchesMore(outer[i], inner, keep, j);
      FlagNext(matched[..], outer, inner, keep, i, j);
      CleanNext(rt, on, outer, inner, i, j);
      if kept.value {
        matched[j] := true;
        found := found + [joined];
      }
    }
    FlagRow(matched[..], outer, inner, keep, i);
    CleanRow(rt, on, outer, inner, i);
    assert inner[..|inner|] == inner;
    return Ok(found), 0;
  }

  method EmitUnmatched(outer: Relation, inner: Relation, ghost keep: Row -> bool, matched: array<bool>, width: nat)
    returns (out: Relation)
    requires FlaggedTo(matched[..], outer, inner, keep, |outer|, 0)
    ensures out == Unmatched(outer, inner, keep, width)
  {
    out := [];
    assert outer[..|outer|] == outer;
    for j := 0 to |inner|
      invariant out == Unmatched(outer, inner[..j], keep, width)
    {
      UnmatchedMore(outer, inner, keep, width, j);
      assert matched[..][j] == matched[j];
      if !matched[j] {
        out := out + [Nulls(width) + inner[j]];
      }
    }
    assert inner[..|inner|] == inner;
  }

  // The widths of the padding are those of the first rows.
  method NestedLoopJoin(rt: Runtime, outer: Relation, inner: Relation, t: JoinType, on: Option<Phys>)
    returns (r: Result<Relation, EvalError>, ghost failed: (nat, nat))
    ensures r.Ok? ==> CleanBefore(rt, on, outer, inner, |outer|, 0)
    ensures r.Ok? ==> r.value == Joined(t, outer, inner, KeptBy(rt, on), FirstWidth(outer), FirstWidth(inner))
    ensures r.Err? ==> failed.0 < |outer| && failed.1 < |inner| && CleanBefore(rt, on, outer, inner, failed.0, failed.1)
                       && Test(rt, on, outer[failed.0] + inner[failed.1]) == Err(r.error)
  {
    var outerWidth, innerWidth := FirstWidth(outer), FirstWidth(inner);
    ghost var keep := KeptBy(rt, on);
    ghost var pad := if PreservesLeft(t) then Some(innerWidth) else None;
    var matched := new bool[|inner|](_ => false);
    var out: Relation := [];
    assert outer[..0] == [];
    for i := 0 to |outer|
      invariant CleanBefore(rt, on, outer, inner, i, 0) && out == LeftPart(outer[..i], inner, keep, pad)
      invariant FlaggedTo(matched[..], outer, inner, keep, i, 0)
    {
      var found, at := Probe(rt, on, outer, i, inner, matched);
      if found.Err? {
        return found, (i, at);
      }
      LeftPartMore(outer, inner, keep, pad, i);
      if found.value == [] && PreservesLeft(t) {
        out := out + [outer[i] + Nulls(innerWidth)];
      } else {
        out := out + found.value;
      }
    }
    assert outer[..|outer|] == outer;
    if PreservesRight(t) {
      var rest := EmitUnmatched(outer, inner, keep, matched, outerWidth);
      out := out + rest;
    }
    return Ok(out), (0, 0);
  }

  // ---------------------------------------------- when the loop gets the width right

  ghost predicate Wide(rows: Relation, width: nat) { forall i :: 0 <= i < |rows| ==> |rows[i]| == width }

  // An empty side has no first row to take a width from.
  predicate PaddingLost(t: JoinType, outer: Relation, inner: Relation, outerWidth: nat, innerWidth: nat) {
    || (PreservesLeft(t) && outer != [] && inner == [] && innerWidth > 0)
    || (PreservesRight(t) && inner != [] && outer == [] && outerWidth > 0)
  }

  lemma {:induction false} LeftPartOverNothing(outer: Relation, keep: Row -> bool, pad: Option<nat>, i: nat)
    requires pad.Some? && i < |outer|
    ensures |LeftPart(outer, [], keep, pad)| == |outer|
            && LeftPart(outer, [], keep, pad)[i] == outer[i] + Nulls(pad.value)
  {
    var n := |outer| - 1;
    assert RowsFor(outer[n], [], keep, pad) == [outer[n] + Nulls(pad.value)];
    if n > 0 {
      LeftPartOverNothing(outer[..n], keep, pad, if i < n then i else 0);
    } else {
      assert outer[..0] == [];
    }
  }

  lemma {:induction false} UnmatchedOverNothing(inner: Relation, keep: Row -> bool, width: nat, j: nat)
    requires j < |inner|
    ensures |Unmatched([], inner, keep, width)| == |inner|
            && Unmatched([], inner, keep, width)[j] == Nulls(width) + inner[j]
  {
    var n := |inner| - 1;
    if n > 0 {
      UnmatchedOverNothing(inner[..n], keep, width, if j < n then j else 0);
    } else {
      assert inner[..0] == [];
    }
  }

  lemma {:induction false} EmptyOuter(t: JoinType, inner: Relation, keep: Row -> bool, a: nat, b: nat, c: nat, d: nat)
    requires inner != []
    ensures Joined(t, [], inner, keep, a, c) == Joined(t, [], inner, keep, b, d) <==> !PreservesRight(t) || a == b
  {
    UnmatchedOverNothing(inner, keep, a, 0);
    UnmatchedOverNothing(inner, keep, b, 0);
    var x, y := Unmatched([], inner, keep, a), Unmatched([], inner, keep, b);
    assert a != b ==> |x[0]| != |y[0]|;
    assert [] + x == x && [] + y == y;
  }

  lemma {:induction false} EmptyInner(t: JoinType, outer: Relation, keep: Row -> bool, a: nat, b: nat, c: nat, d: nat)
    requires outer != []
    ensures Joined(t, outer, [], keep, a, c) == Joined(t, outer, [], keep, b, d) <==> !PreservesLeft(t) || c == d
  {
    LeftPartOverNothing(outer, keep, Some(c), 0);
    LeftPartOverNothing(outer, keep, Some(d), 0);
    var x, y := LeftPart(outer, [], keep, Some(c)), LeftPart(outer, [], keep, Some(d));
    assert c != d ==> |x[0]| != |y[0]|;
    assert x + [] == x && y + [] == y;
  }

  // The loop yields the declared join exactly when no row is padded against an empty side.
  lemma {:induction false} LoopIsTheJoin(t: JoinType, outer: Relation, inner: Relation, keep: Row -> bool,
                                         outerWidth: nat, innerWidth: nat)
    requires Wide(outer, outerWidth) && Wide(inner, innerWidth)
    ensures Joined(t, outer, inner, keep, FirstWidth(outer), FirstWidth(inner)) ==
            Joined(t, outer, inner, keep, outerWidth, innerWidth)
            <==> !PaddingLost(t, outer, inner, outerWidth, innerWidth)
  {
    if outer == [] && inner != [] {
      EmptyOuter(t, inner, keep, 0, outerWidth, FirstWidth(inner), innerWidth);
    } else if outer != [] && inner == [] {
      EmptyInner(t, outer, keep, FirstWidth(outer), outerWidth, 0, innerWidth);
    }
  }

  // A left join with an empty right side loses its padding.
  lemma {:induction false} APaddingLost(keep: Row -> bool)
    ensures Joined(Left, [[Int4(1)]], [], keep, FirstWidth([[Int4(1)]]), FirstWidth([])) == [[Int4(1)]]
    ensures Joined(Left, [[Int4(1)]], [], keep, 1, 1) == [[Int4(1), Null]]
  {
    var outer: Relation := [[Int4(1)]];
    LeftPartOverNothing(outer, keep, Some(0), 0);
    LeftPartOverNothing(outer, keep, Some(1), 0);
    assert [Int4(1)] + Nulls(0) == [Int4(1)] && [Int4(1)] + Nulls(1) == [Int4(1), Null];
    assert LeftPart(outer, [], keep, Some(0)) == [[Int4(1)]];
    assert LeftPart(outer, [], keep, Some(1)) == [[Int4(1), Null]];
  }
}
