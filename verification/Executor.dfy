// The executor's loops against the rows a plan is said to put out.
module Executor {
  import opened Wrappers
  import opened Sequences
  import opened Values
  import opened Exprs
  import opened Scalars
  import opened Joins
  import opened JoinFilters
  import opened Aggregates
  import opened Plans

  // ------------------------------------------------------------------- joins

  lemma {:induction false} RowErrorAt(rt: Runtime, on: Option<Phys>, l: Row, inner: Relation, j: nat)
    requires j <= |inner| && forall b {:trigger Clean(rt, on, l, inner[b])} :: 0 <= b < j ==> Clean(rt, on, l, inner[b])
    ensures RowError(rt, on, l, inner[..j]).None?
    ensures j < |inner| && Test(rt, on, l + inner[j]).Err? ==>
            RowError(rt, on, l, inner) == Some(Test(rt, on, l + inner[j]).error)
    decreases j
  {
    if j > 0 {
      assert inner[..j][..j - 1] == inner[..j - 1];
      assert Clean(rt, on, l, inner[j - 1]);
      RowErrorAt(rt, on, l, inner, j - 1);
    }
    if j < |inner| && Test(rt, on, l + inner[j]).Err? {
      RowErrorStays(rt, on, l, inner, j + 1);
      assert inner[..j + 1][..j] == inner[..j];
    }
  }

  lemma {:induction false} RowErrorStays(rt: Runtime, on: Option<Phys>, l: Row, inner: Relation, j: nat)
    requires j <= |inner|
    ensures RowError(rt, on, l, inner[..j]).Some? ==> RowError(rt, on, l, inner) == RowError(rt, on, l, inner[..j])
  {
    if j < |inner| {
      var n := |inner| - 1;
      RowErrorStays(rt, on, l, inner[..n], j);
      assert inner[..n][..j] == inner[..j];
    } else {
      assert inner[..j] == inner;
    }
  }

  lemma {:induction false} PairErrorStays(rt: Runtime, on: Option<Phys>, outer: Relation, inner: Relation, i: nat)
    requires i <= |outer|
    ensures PairError(rt, on, outer[..i], inner).Some? ==>
            PairError(rt, on, outer, inner) == PairError(rt, on, outer[..i], inner)
  {
    if i < |outer| {
      var n := |outer| - 1;
      PairErrorStays(rt, on, outer[..n], inner, i);
      assert outer[..n][..i] == outer[..i];
    } else {
      assert outer[..i] == outer;
    }
  }

  lemma {:induction false} NoErrorBefore(rt: Runtime, on: Option<Phys>, outer: Relation, inner: Relation, i: nat)
    requires i <= |outer| && CleanBefore(rt, on, outer, inner, i, 0)
    ensures PairError(rt, on, outer[..i], inner).None?
  {
    if i > 0 {
      NoErrorBefore(rt, on, outer, inner, i - 1);
      assert outer[..i][..i - 1] == outer[..i - 1];
      forall b | 0 <= b < |inner| ensures Clean(rt, on, outer[i - 1], inner[b]) {
        assert Clean(rt, on, outer[i - 1], inner[b]);
      }
      RowErrorAt(rt, on, outer[i - 1], inner, |inner|);
      assert inner[..|inner|] == inner;
    }
  }

  // A pass of the loop that fails does so with the error the join is said to fail with.
  lemma {:induction false} LoopFails(rt: Runtime, t: JoinType, on: Option<Phys>, outer: Relation, inner: Relation,
                                     i: nat, j: nat, lw: nat, rw: nat)
    requires i < |outer| && j < |inner| && CleanBefore(rt, on, outer, inner, i, j)
             && Test(rt, on, outer[i] + inner[j]).Err?
    ensures JoinRows(rt, t, on, outer, inner, lw, rw) == Err(Test(rt, on, outer[i] + inner[j]).error)
  {
    NoErrorBefore(rt, on, outer, inner, i);
    RowErrorAt(rt, on, outer[i], inner, j);
    assert outer[..i + 1][..i] == outer[..i];
    PairErrorStays(rt, on, outer, inner, i + 1);
  }

  // A pass that succeeds puts out the declared join, unless padding was lost.
  lemma {:induction false} LoopSucceeds(rt: Runtime, t: JoinType, on: Option<Phys>, outer: Relation, inner: Relation,
                                        lw: nat, rw: nat)
    requires CleanBefore(rt, on, outer, inner, |outer|, 0) && Wide(outer, lw) && Wide(inner, rw)
    ensures JoinRows(rt, t, on, outer, inner, lw, rw) ==
            Ok(Joined(t, outer, inner, KeptBy(rt, on), FirstWidth(outer), FirstWidth(inner)))
            <==> !PaddingLost(t, outer, inner, lw, rw)
  {
    NoErrorBefore(rt, on, outer, inner, |outer|);
    assert outer[..|outer|] == outer;
    LoopIsTheJoin(t, outer, inner, KeptBy(rt, on), lw, rw);
  }

  // The loop's outcome, rows or error, as a function.
  method RunJoin(rt: Runtime, t: JoinType, on: Option<Phys>, outer: Relation, inner: Relation) returns (r: Rows)
    ensures r == JoinRows(rt, t, on, outer, inner, FirstWidth(outer), FirstWidth(inner))
  {
    ghost var failed;
    r, failed := NestedLoopJoin(rt, outer, inner, t, on);
    if r.Ok? {
      NoErrorBefore(rt, on, outer, inner, |outer|);
      assert outer[..|outer|] == outer;
    } else {
      LoopFails(rt, t, on, outer, inner, failed.0, failed.1, FirstWidth(outer), FirstWidth(inner));
    }
  }

  // A filter that sinks into the padded side can empty it, and the loop then pads with nothing.
  lemma {:induction false} FilterLosesPadding(keep: Row -> bool)
    requires forall r :: !keep(r)
    ensures Joined(Left, [[Int4(1)]], [[Int4(5)]], keep, 1, FirstWidth([[Int4(5)]])) == [[Int4(1), Null]]
    ensures Joined(Left, [[Int4(1)]], Where([[Int4(5)]], keep), keep, 1, FirstWidth(Where([[Int4(5)]], keep))) ==
            [[Int4(1)]]
  {
    var outer, inner: Relation := [[Int4(1)]], [[Int4(5)]];
    WhereNone(inner, keep);
    APaddingLost(keep);
    assert inner[..0] == [] && outer[..0] == [];
    assert Matches(outer[0], inner, keep) == [];
    assert [Int4(1)] + Nulls(1) == [Int4(1), Null];
    assert LeftPart(outer, inner, keep, Some(1)) == [[Int4(1), Null]];
  }

  // ---------------------------------------------------------------- aggregates

  lemma {:induction false} ResultsOf(rt: Runtime, calls: seq<AggCall<nat>>, members: Relation, values: Row)
    requires ResultsAre(rt, calls, members, values)
    ensures Results(rt, calls, members) == Ok(values)
  {
    ResultsCome(rt, calls, members);
    var found := Results(rt, calls, members).value;
    assert ResultsAre(rt, calls, members, found);
    forall i | 0 <= i < |values| ensures values[i] == found[i] {
      assert Folded(rt, calls[i], members).Ok?;
    }
    assert values == found;
  }

  lemma {:induction false} ResultsCome(rt: Runtime, calls: seq<AggCall<nat>>, members: Relation)
    requires forall a :: 0 <= a < |calls| ==> Folded(rt, calls[a], members).Ok?
    ensures Results(rt, calls, members).Ok?
  {
    if calls != [] {
      ResultsCome(rt, calls[..|calls| - 1], members);
    }
  }

  lemma {:induction false} OneMoreGroup(rt: Runtime, calls: seq<AggCall<nat>>, rows: Relation, keys: seq<Row>,
                                        groups: seq<Row>, k: Row, front: Relation, out: Row)
    requires |rows| == |keys| && GroupRowsFor(rt, calls, rows, keys, groups) == Ok(front)
    requires GroupRow(rt, calls, Members(rows, keys, k), k, out)
    ensures GroupRowsFor(rt, calls, rows, keys, groups + [k]) == Ok(front + [out])
  {
    ResultsOf(rt, calls, Members(rows, keys, k), out[|k|..]);
    assert (groups + [k])[..|groups|] == groups;
    assert k + out[|k|..] == out;
  }

  ghost predicate GroupAt(rt: Runtime, calls: seq<AggCall<nat>>, rows: Relation, keys: seq<Row>, k: Row, out: Row)
    requires |rows| == |keys|
  {
    GroupRow(rt, calls, Members(rows, keys, k), k, out)
  }

  ghost predicate GroupsAt(rt: Runtime, calls: seq<AggCall<nat>>, rows: Relation, keys: seq<Row>, groups: seq<Row>,
                           out: Relation)
    requires |rows| == |keys|
  {
    && |out| == |groups|
    && forall g {:trigger GroupAt(rt, calls, rows, keys, groups[g], out[g])} :: 0 <= g < |groups| ==>
      GroupAt(rt, calls, rows, keys, groups[g], out[g])
  }

  lemma {:induction false} GroupsBefore(rt: Runtime, calls: seq<AggCall<nat>>, rows: Relation, keys: seq<Row>,
                                        groups: seq<Row>, out: Relation, n: nat)
    requires |rows| == |keys| && GroupsAt(rt, calls, rows, keys, groups, out) && n < |groups|
    ensures GroupsAt(rt, calls, rows, keys, groups[..n], out[..n]) && GroupAt(rt, calls, rows, keys, groups[n], out[n])
  {
    forall g | 0 <= g < n ensures GroupAt(rt, calls, rows, keys, groups[..n][g], out[..n][g]) {
      assert GroupAt(rt, calls, rows, keys, groups[g], out[g]);
    }
    assert GroupAt(rt, calls, rows, keys, groups[n], out[n]);
  }

  lemma {:induction false} RowsOfGroups(rt: Runtime, calls: seq<AggCall<nat>>, rows: Relation, keys: seq<Row>,
                                        groups: seq<Row>, out: Relation)
    requires |rows| == |keys| && GroupsAt(rt, calls, rows, keys, groups, out)
    ensures GroupRowsFor(rt, calls, rows, keys, groups) == Ok(out)
    decreases |groups|
  {
    if groups != [] {
      var n := |groups| - 1;
      GroupsBefore(rt, calls, rows, keys, groups, out, n);
      RowsOfGroups(rt, calls, rows, keys, groups[..n], out[..n]);
      OneMoreGroup(rt, calls, rows, keys, groups[..n], groups[n], out[..n], out[n]);
      LastApart(groups);
      LastApart(out);
    }
  }

  lemma {:induction false} KeysOfRows(rt: Runtime, groupBy: seq<Phys>, rows: Relation, keys: seq<Row>)
    requires KeysAre(rt, groupBy, rows, keys)
    ensures KeyRows(rt, groupBy, rows) == Ok(keys)
  {
    forall j | 0 <= j < |rows| ensures KeyOf(rt, groupBy, rows[j]) == Ok(keys[j]) {
      assert KeyIs(rt, groupBy, rows[j], keys[j]);
    }
    KeyRowsCome(rt, groupBy, rows);
    var found := KeyRows(rt, groupBy, rows).value;
    forall j | 0 <= j < |rows| ensures found[j] == keys[j] {
      KeyRowAt(rt, groupBy, rows, j);
    }
    assert found == keys;
  }

  lemma {:induction false} KeyRowsCome(rt: Runtime, groupBy: seq<Phys>, rows: Relation)
    requires forall i :: 0 <= i < |rows| ==> KeyOf(rt, groupBy, rows[i]).Ok?
    ensures KeyRows(rt, groupBy, rows).Ok?
  {
    if rows != [] {
      KeyRowsCome(rt, groupBy, rows[..|rows| - 1]);
    }
  }

  // What the hash pass puts out is what a plan's aggregate is said to put out.
  lemma {:induction false} PassIsGroups(rt: Runtime, groupBy: seq<Phys>, calls: seq<AggCall<nat>>, rows: Relation,
                                        keys: seq<Row>, out: Relation)
    requires KeysAre(rt, groupBy, rows, keys) && Grouped(rt, groupBy, calls, rows, keys, out)
    ensures GroupRows(rt, groupBy, calls, rows) == Ok(out)
  {
    KeysOfRows(rt, groupBy, rows, keys);
    var groups := GroupsOf(groupBy, keys);
    forall g | 0 <= g < |groups| ensures GroupAt(rt, calls, rows, keys, groups[g], out[g]) {
      assert GroupRow(rt, calls, Members(rows, keys, groups[g]), groups[g], out[g]);
    }
    RowsOfGroups(rt, calls, rows, keys, GroupsOf(groupBy, keys), out);
  }

  // A fold that failed stays failed.
  lemma {:induction false} FoldStaysFailed(rt: Runtime, call: AggCall<nat>, rows: Relation, m: nat)
    requires m <= |rows| && Folded(rt, call, rows[..m]).Err?
    ensures Folded(rt, call, rows).Err?
  {
    if m < |rows| {
      var n := |rows| - 1;
      assert rows[..n][..m] == rows[..m];
      FoldStaysFailed(rt, call, rows[..n], m);
    } else {
      assert rows[..m] == rows;
    }
  }

  lemma {:induction false} MembersSoFar(rows: Relation, keys: seq<Row>, k: Row, m: nat)
    requires |rows| == |keys| && m <= |rows|
    ensures Members(rows[..m], keys[..m], k) <= Members(rows, keys, k)
  {
    if m < |rows| {
      var n := |rows| - 1;
      assert rows[..n][..m] == rows[..m] && keys[..n][..m] == keys[..m];
      MembersSoFar(rows[..n], keys[..n], k, m);
    } else {
      assert rows[..m] == rows && keys[..m] == keys;
    }
  }

  lemma {:induction false} SeenAmong(keys: seq<Row>, n: nat) returns (g: nat)
    requires n < |keys|
    ensures g < |FirstSeen(keys)| && FirstSeen(keys)[g] == keys[n]
  {
    var m := |keys| - 1;
    if n < m {
      g := SeenAmong(keys[..m], n);
    } else if keys[m] in FirstSeen(keys[..m]) {
      g :| 0 <= g < |FirstSeen(keys[..m])| && FirstSeen(keys[..m])[g] == keys[m];
    } else {
      g := |FirstSeen(keys[..m])|;
    }
  }

  // If the rows can be grouped, every aggregate of every group gets through.
  lemma {:induction false} GroupedFolds(rt: Runtime, groupBy: seq<Phys>, calls: seq<AggCall<nat>>, rows: Relation,
                                        keys: seq<Row>, n: nat, a: nat)
    requires KeyRows(rt, groupBy, rows) == Ok(keys) && GroupRows(rt, groupBy, calls, rows).Ok?
    requires n < |rows| && a < |calls|
    ensures Folded(rt, calls[a], Members(rows[..n + 1], keys[..n + 1], keys[n])).Ok?
  {
    var g := SeenAmong(keys, n);
    var out := GroupRows(rt, groupBy, calls, rows).value;
    var members := Members(rows, keys, keys[n]);
    assert GroupsOf(groupBy, keys) == FirstSeen(keys);
    assert GroupRow(rt, calls, members, keys[n], out[g]);
    assert Folded(rt, calls[a], members).Ok?;
    MembersSoFar(rows, keys, keys[n], n + 1);
    var some := Members(rows[..n + 1], keys[..n + 1], keys[n]);
    if Folded(rt, calls[a], some).Err? {
      assert members[..|some|] == some;
      FoldStaysFailed(rt, calls[a], members, |some|);
    }
  }

  lemma {:induction false} SameKeys(rt: Runtime, groupBy: seq<Phys>, rows: Relation, keys: seq<Row>, ks: seq<Row>,
                                    n: nat)
    requires KeyRows(rt, groupBy, rows) == Ok(ks) && n < |rows| && n < |keys|
    requires KeysAre(rt, groupBy, rows[..n], keys[..n]) && KeyOf(rt, groupBy, rows[n]) == Ok(keys[n])
    ensures keys[..n + 1] == ks[..n + 1]
  {
    forall i | 0 <= i < n + 1 ensures keys[i] == ks[i] {
      if i < n {
        assert KeyIs(rt, groupBy, rows[..n][i], keys[..n][i]);
      }
      KeyRowAt(rt, groupBy, rows, i);
    }
  }

  lemma {:induction false} FoldStopped(rt: Runtime, groupBy: seq<Phys>, calls: seq<AggCall<nat>>, rows: Relation,
                                       keys: seq<Row>, n: nat, a: nat)
    requires n < |rows| && n < |keys| && a < |calls|
    requires KeysAre(rt, groupBy, rows[..n], keys[..n]) && KeyOf(rt, groupBy, rows[n]) == Ok(keys[n])
    requires Folded(rt, calls[a], Members(rows[..n + 1], keys[..n + 1], keys[n])).Err?
    ensures GroupRows(rt, groupBy, calls, rows).Err?
  {
    if GroupRows(rt, groupBy, calls, rows).Ok? {
      var ks := KeyRows(rt, groupBy, rows).value;
      SameKeys(rt, groupBy, rows, keys, ks, n);
      assert keys[n] == keys[..n + 1][n] == ks[n];
      GroupedFolds(rt, groupBy, calls, rows, ks, n, a);
    }
  }

  // A pass that stops does so on rows that cannot be grouped.
  lemma {:induction false} PassFails(rt: Runtime, groupBy: seq<Phys>, calls: seq<AggCall<nat>>, rows: Relation,
                                     keys: seq<Row>, n: nat, e: EvalError)
    requires Stopped(rt, groupBy, calls, rows, keys, n, e)
    ensures GroupRows(rt, groupBy, calls, rows).Err?
  {
    if KeyOf(rt, groupBy, rows[n]).Err? {
      if KeyRows(rt, groupBy, rows).Ok? {
        KeyRowAt(rt, groupBy, rows, n);
      }
    } else {
      var a :| 0 <= a < |calls| && Folded(rt, calls[a], Members(rows[..n + 1], keys[..n + 1], keys[n])) == Err(e);
      FoldStopped(rt, groupBy, calls, rows, keys, n, a);
    }
  }

  // The pass puts out the groups a plan's aggregate stands for, and fails exactly when it does.
  method RunGroups(rt: Runtime, groupBy: seq<Phys>, calls: seq<AggCall<nat>>, rows: Relation) returns (r: Rows)
    ensures if r.Ok? then GroupRows(rt, groupBy, calls, rows) == r else GroupRows(rt, groupBy, calls, rows).Err?
  {
    ghost var keys, n;
    r, keys, n := RunAggregate(rt, rows, groupBy, calls);
    if r.Ok? {
      PassIsGroups(rt, groupBy, calls, rows, keys, r.value);
    } else {
      PassFails(rt, groupBy, calls, rows, keys, n, r.error);
    }
  }
}
