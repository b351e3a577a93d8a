// What each aggregate function comes to over a whole group.
module Summaries {
  import opened Values
  import opened Ordering
  import opened Scalars
  import opened Joins
  import opened Aggregates

  // The argument values that count: not null, and under DISTINCT only the first of equal ones.
  function Counted(rt: Runtime, call: AggCall<nat>, rows: Relation): seq<Value> {
    if rows == [] then []
    else
      var n := |rows| - 1;
      var before := Counted(rt, call, rows[..n]);
      match ArgOf(rt, call, rows[n])
      case Ok(Some(v)) => if v == Null || (call.distinct && v in before) then before else before + [v]
      case _ => before
  }

  function Amount(v: Value): real { match AsReal(v) case Some(x) => x case None => 0.0 }

  function Total(vs: seq<Value>): real { if vs == [] then 0.0 else Total(vs[..|vs| - 1]) + Amount(vs[|vs| - 1]) }

  predicate HasFloat(vs: seq<Value>) { exists i :: 0 <= i < |vs| && vs[i].Float8? }

  ghost predicate Numbers(vs: seq<Value>) { forall i :: 0 <= i < |vs| ==> AsReal(vs[i]).Some? }

  // None of these comes before `x`.
  ghost predicate Extreme(func: AggFunc, x: Value, vs: seq<Value>) {
    x in vs && forall i :: 0 <= i < |vs| ==> Unbeaten(func, x, vs[i])
  }

  ghost predicate Unbeaten(func: AggFunc, x: Value, v: Value) { Comparable(v, x) && !Beats(func, Cmp(v, x)) }

  // ------------------------------------------------------- what is accumulated

  ghost predicate Tallies(a: Accumulator, vs: seq<Value>) {
    a.count == |vs| && (a.any <==> vs != []) && (a.distinct ==> forall v :: v in a.seen <==> v in vs)
  }

  ghost predicate Sums(a: Accumulator, vs: seq<Value>) {
    && a.integral as real + a.fractional == Total(vs) && Numbers(vs)
    && (a.isFloat <==> HasFloat(vs)) && (!a.isFloat ==> a.fractional == 0.0)
  }

  ghost predicate Leads(a: Accumulator, vs: seq<Value>) {
    if vs == [] then a.extreme.None? else a.extreme.Some? && Extreme(a.func, a.extreme.value, vs)
  }

  ghost predicate Summary(a: Accumulator, vs: seq<Value>) {
    && Tallies(a, vs)
    && (a.func in {Sum, Avg} ==> Sums(a, vs))
    && (a.func in {Min, Max} ==> Leads(a, vs))
    && forall i :: 0 <= i < |vs| ==> vs[i] != Null
  }

  lemma {:induction false} TotalMore(vs: seq<Value>, v: Value)
    ensures Total(vs + [v]) == Total(vs) + Amount(v)
  {
    assert (vs + [v])[..|vs|] == vs;
  }

  lemma {:induction false} FloatMore(vs: seq<Value>, v: Value)
    ensures HasFloat(vs + [v]) <==> HasFloat(vs) || v.Float8?
  {
    var ws := vs + [v];
    if HasFloat(vs) {
      var i :| 0 <= i < |vs| && vs[i].Float8?;
      assert ws[i].Float8?;
    }
    if v.Float8? {
      assert ws[|vs|].Float8?;
    }
  }

  lemma {:induction false} SumStep(a: Accumulator, vs: seq<Value>, v: Value)
    requires Sums(a, vs) && AddNumber(a, v).Ok?
    ensures Sums(AddNumber(a, v).value, vs + [v])
  {
    TotalMore(vs, v);
    FloatMore(vs, v);
  }

  lemma {:induction false} StillUnbeaten(func: AggFunc, old_: Value, new_: Value, v: Value)
    requires Comparable(new_, old_) && Beats(func, Cmp(new_, old_)) && Unbeaten(func, old_, v)
    ensures Unbeaten(func, new_, v)
  {
    CompareFlips(new_, old_);
    CompareChains(v, old_, new_);
    CompareFlips(v, old_);
    CompareChains(new_, old_, v);
    CompareFlips(v, new_);
  }

  lemma {:induction false} NewLeader(a: Accumulator, v: Value, w: Value)
    requires a.extreme.Some? && TakeExtreme(a, v).Ok? && Comparable(v, a.extreme.value)
    requires Unbeaten(a.func, a.extreme.value, w)
    ensures TakeExtreme(a, v).value.extreme.Some? && Unbeaten(a.func, TakeExtreme(a, v).value.extreme.value, w)
  {
    if TakeExtreme(a, v).value.extreme != a.extreme {
      StillUnbeaten(a.func, a.extreme.value, v, w);
    }
  }

  lemma {:induction false} LeadStep(a: Accumulator, vs: seq<Value>, v: Value)
    requires Leads(a, vs) && TakeExtreme(a, v).Ok? && v != Null && forall i :: 0 <= i < |vs| ==> vs[i] != Null
    ensures Leads(TakeExtreme(a, v).value, vs + [v])
  {
    var ws := vs + [v];
    CompareSelf(v);
    if vs != [] {
      var x := a.extreme.value;
      assert Comparable(v, x);
      var y := TakeExtreme(a, v).value.extreme.value;
      forall i | 0 <= i < |ws| ensures Unbeaten(a.func, y, ws[i]) {
        if i < |vs| {
          assert Unbeaten(a.func, x, vs[i]);
          NewLeader(a, v, vs[i]);
        }
      }
      assert y in ws;
    } else {
      assert ws == [v];
    }
  }

  // The fields a sum or an extreme does not touch.
  ghost predicate SameTally(a: Accumulator, b: Accumulator) {
    a.func == b.func && a.distinct == b.distinct && a.seen == b.seen && a.count == b.count && a.any == b.any
  }

  lemma {:induction false} TallyKept(a: Accumulator, v: Value)
    ensures AddNumber(a, v).Ok? ==> SameTally(a, AddNumber(a, v).value)
    ensures TakeExtreme(a, v).Ok? ==> SameTally(a, TakeExtreme(a, v).value)
  {
  }

  lemma {:induction false} TallyStep(a: Accumulator, b: Accumulator, vs: seq<Value>, v: Value)
    requires Tallies(a, vs) && b.count == a.count + 1 && b.any && b.distinct == a.distinct
             && (a.distinct ==> b.seen == a.seen + {v})
    ensures Tallies(b, vs + [v])
  {
    assert v in vs + [v];
  }

  lemma {:induction false} SummaryStep(a: Accumulator, vs: seq<Value>, v: Value)
    requires Summary(a, vs) && v != Null && !(a.distinct && v in a.seen) && Take(a, v).Ok?
    ensures Summary(Take(a, v).value, vs + [v]) && Take(a, v).value.func == a.func
            && Take(a, v).value.distinct == a.distinct
  {
    if a.func == Sum || a.func == Avg {
      NumberTaken(a, vs, v);
    } else if a.func == Min || a.func == Max {
      ExtremeTaken(a, vs, v);
    } else {
      TallyStep(a, Take(a, v).value, vs, v);
    }
  }

  lemma {:induction false} NumberTaken(a: Accumulator, vs: seq<Value>, v: Value)
    requires (a.func == Sum || a.func == Avg) && Summary(a, vs) && v != Null && Take(a, v).Ok?
    ensures Summary(Take(a, v).value, vs + [v]) && SameTally(Counting(a, v), Take(a, v).value)
  {
    TallyKept(Counting(a, v), v);
    TallyStep(a, Take(a, v).value, vs, v);
    SumStep(Counting(a, v), vs, v);
  }

  lemma {:induction false} ExtremeTaken(a: Accumulator, vs: seq<Value>, v: Value)
    requires (a.func == Min || a.func == Max) && Summary(a, vs) && v != Null && Take(a, v).Ok?
    ensures Summary(Take(a, v).value, vs + [v]) && SameTally(Counting(a, v), Take(a, v).value)
  {
    TallyKept(Counting(a, v), v);
    TallyStep(a, Take(a, v).value, vs, v);
    LeadStep(Counting(a, v), vs, v);
  }

  lemma {:induction false} Accumulates(rt: Runtime, call: AggCall<nat>, rows: Relation)
    requires call.arg.Some? && Folded(rt, call, rows).Ok?
    ensures var a := Folded(rt, call, rows).value;
            a.func == call.func && a.distinct == call.distinct && Summary(a, Counted(rt, call, rows))
  {
    if rows != [] {
      var n := |rows| - 1;
      Accumulates(rt, call, rows[..n]);
      var a, before := Folded(rt, call, rows[..n]).value, Counted(rt, call, rows[..n]);
      var v := ArgOf(rt, call, rows[n]).value.value;
      if v != Null && !(a.distinct && v in a.seen) {
        SummaryStep(a, before, v);
      }
    }
  }

  lemma {:induction false} StarCounts(rt: Runtime, call: AggCall<nat>, rows: Relation)
    requires call.arg.None? && Folded(rt, call, rows).Ok?
    ensures var a := Folded(rt, call, rows).value; a.func == call.func && a.count == |rows| && !a.any
  {
    if rows != [] {
      StarCounts(rt, call, rows[..|rows| - 1]);
    }
  }

  // ------------------------------------------------------------- the results

  // count: how many values count. sum and avg: over those values, integral unless one of them is
  // fractional. min and max: one of those values, and none comes before it. All but count are
  // null when no value counts.
  ghost predicate ResultIs(func: AggFunc, vs: seq<Value>, x: Value) {
    match func
    case Count => x == Int8(|vs|)
    case Sum =>
      if vs == [] then x == Null
      else if HasFloat(vs) then x == Float8(Total(vs))
      else x.Int8? && x.i as real == Total(vs)
    case Avg => if vs == [] then x == Null else x == Float8(Total(vs) / (|vs| as real))
    case Min => if vs == [] then x == Null else Extreme(Min, x, vs)
    case Max => if vs == [] then x == Null else Extreme(Max, x, vs)
  }

  lemma {:induction false} FinishIs(a: Accumulator, vs: seq<Value>)
    requires Summary(a, vs)
    ensures ResultIs(a.func, vs, Finish(a))
  {
  }

  lemma {:induction false} AggregateMeans(rt: Runtime, call: AggCall<nat>, rows: Relation)
    requires Folded(rt, call, rows).Ok? && call.arg.Some?
    ensures ResultIs(call.func, Counted(rt, call, rows), Finish(Folded(rt, call, rows).value))
  {
    Accumulates(rt, call, rows);
    FinishIs(Folded(rt, call, rows).value, Counted(rt, call, rows));
  }

  // `count(*)` counts rows.
  lemma {:induction false} CountStarMeans(rt: Runtime, call: AggCall<nat>, rows: Relation)
    requires Folded(rt, call, rows).Ok? && call.arg.None?
    ensures Finish(Folded(rt, call, rows).value) == if call.func == Count then Int8(|rows|) else Null
  {
    StarCounts(rt, call, rows);
  }
}
