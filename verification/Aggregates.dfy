// Grouping rows and folding each group.
module Aggregates {
  import opened Wrappers
  import opened Values
  import opened Ordering
  import opened Exprs
  import opened Scalars
  import opened Evaluation
  import opened Joins

  datatype AggFunc = Count | Sum | Avg | Min | Max

  // No argument is the `*` of `count(*)`.
  datatype AggCall<V> = AggCall(func: AggFunc, arg: Option<Tree<V>>, distinct: bool)

  // ------------------------------------------------------------ accumulating

  datatype Accumulator = Accumulator(func: AggFunc, distinct: bool, seen: set<Value>, count: nat, integral: int,
                                     fractional: real, isFloat: bool, any: bool, extreme: Option<Value>)

  function Fresh(func: AggFunc, distinct: bool): Accumulator {
    Accumulator(func, distinct, {}, 0, 0, 0.0, false, false, None)
  }

  function AddInteger(a: Accumulator, n: int): Result<Accumulator, EvalError> {
    if MIN_I64 <= a.integral + n <= MAX_I64 then Ok(a.(integral := a.integral + n)) else Err(SumOverflow)
  }

  function AddNumber(a: Accumulator, v: Value): Result<Accumulator, EvalError> {
    match v
    case Int4(i) => AddInteger(a, i)
    case Int8(i) => AddInteger(a, i)
    case Float8(f) => Ok(a.(isFloat := true, fractional := a.fractional + f))
    case _ => Err(TypeMismatch(Float8Type, KnownType(v)))
  }

  function Beats(func: AggFunc, o: Order): bool { if func == Min then o == Less else o == Greater }

  function TakeExtreme(a: Accumulator, v: Value): Result<Accumulator, EvalError> {
    if a.extreme.None? then Ok(a.(extreme := Some(v)))
    else match Compare(v, a.extreme.value)
      case Err(e) => Err(e)
      case Ok(None) => Ok(a)
      case Ok(Some(o)) => Ok(if Beats(a.func, o) then a.(extreme := Some(v)) else a)
  }

  function Counting(a: Accumulator, v: Value): Accumulator {
    a.(count := a.count + 1, any := true, seen := if a.distinct then a.seen + {v} else a.seen)
  }

  // A value that counts.
  function Take(a: Accumulator, v: Value): Result<Accumulator, EvalError> {
    var b := Counting(a, v);
    match a.func
    case Count => Ok(b)
    case Sum => AddNumber(b, v)
    case Avg => AddNumber(b, v)
    case Min => TakeExtreme(b, v)
    case Max => TakeExtreme(b, v)
  }

  function Push(a: Accumulator, x: Option<Value>): Result<Accumulator, EvalError> {
    match x
    case None => Ok(a.(count := a.count + 1))
    case Some(v) => if v == Null || (a.distinct && v in a.seen) then Ok(a) else Take(a, v)
  }

  function Finish(a: Accumulator): Value {
    if a.func == Count then Int8(a.count)
    else if !a.any then Null
    else if a.func == Sum then (if a.isFloat then Float8(a.integral as real + a.fractional) else Int8(a.integral))
    else if a.func == Avg then (if a.count == 0 then Null
      else Float8((a.integral as real + a.fractional) / (a.count as real)))
    else if a.extreme.Some? then a.extreme.value
    else Null
  }

  function ArgOf(rt: Runtime, call: AggCall<nat>, row: Row): Result<Option<Value>, EvalError> {
    match call.arg
    case None => Ok(None)
    case Some(e) => (match Eval(rt, e, row) case Err(x) => Err(x) case Ok(v) => Ok(Some(v)))
  }

  // A whole group, folded in order.
  function Folded(rt: Runtime, call: AggCall<nat>, rows: Relation): Result<Accumulator, EvalError> {
    if rows == [] then Ok(Fresh(call.func, call.distinct))
    else
      var n := |rows| - 1;
      match Folded(rt, call, rows[..n])
      case Err(e) => Err(e)
      case Ok(a) => (match ArgOf(rt, call, rows[n]) case Err(e) => Err(e) case Ok(x) => Push(a, x))
  }

  // --------------------------------------------------------------- grouping

  function KeyOf(rt: Runtime, groupBy: seq<Phys>, row: Row): Result<Row, EvalError> {
    Collected(EvalAll(rt, groupBy, row))
  }

  // Each key once, where it first appears.
  function FirstSeen(keys: seq<Row>): seq<Row> {
    if keys == [] then []
    else
      var n := |keys| - 1;
      var before := FirstSeen(keys[..n]);
      if keys[n] in before then before else before + [keys[n]]
  }

  // The rows with this key, in order.
  function Members(rows: Relation, keys: seq<Row>, k: Row): Relation
    requires |rows| == |keys|
  {
    if rows == [] then []
    else
      var n := |rows| - 1;
      Members(rows[..n], keys[..n], k) + (if keys[n] == k then [rows[n]] else [])
  }

  ghost predicate KeysAre(rt: Runtime, groupBy: seq<Phys>, rows: Relation, keys: seq<Row>) {
    |keys| == |rows| && forall i {:trigger KeyIs(rt, groupBy, rows[i], keys[i])} :: 0 <= i < |rows| ==>
      KeyIs(rt, groupBy, rows[i], keys[i])
  }

  ghost predicate KeyIs(rt: Runtime, groupBy: seq<Phys>, row: Row, key: Row) { KeyOf(rt, groupBy, row) == Ok(key) }

  datatype Group = Group(key: Row, accs: seq<Accumulator>)

  ghost predicate GroupOk(rt: Runtime, aggs: seq<AggCall<nat>>, rows: Relation, keys: seq<Row>, g: Group)
    requires |rows| == |keys|
  {
    |g.accs| == |aggs| && forall a :: 0 <= a < |aggs| ==>
      Folded(rt, aggs[a], Members(rows, keys, g.key)) == Ok(g.accs[a])
  }

  // One group per key, in the order the keys appeared, each folded over its own rows.
  ghost predicate GroupsOk(rt: Runtime, aggs: seq<AggCall<nat>>, rows: Relation, keys: seq<Row>, groups: seq<Group>)
    requires |rows| == |keys|
  {
    && |groups| == |FirstSeen(keys)|
    && (forall g :: 0 <= g < |groups| ==> groups[g].key == FirstSeen(keys)[g])
    && (forall g {:trigger GroupOk(rt, aggs, rows, keys, groups[g])} :: 0 <= g < |groups| ==>
      GroupOk(rt, aggs, rows, keys, groups[g]))
  }

  ghost predicate PositionsOk(positions: map<Row, nat>, seen: seq<Row>) {
    && (forall k :: k in positions <==> k in seen)
    && (forall k :: k in positions ==> positions[k] < |seen| && seen[positions[k]] == k)
  }

  // ------------------------------------------------------------- one more row

  lemma {:induction false} FirstSeenMore(keys: seq<Row>, k: Row)
    ensures FirstSeen(keys + [k]) == if k in FirstSeen(keys) then FirstSeen(keys) else FirstSeen(keys) + [k]
  {
    assert (keys + [k])[..|keys|] == keys;
  }

  lemma {:induction false} MembersMore(rows: Relation, keys: seq<Row>, row: Row, key: Row, k: Row)
    requires |rows| == |keys|
    ensures Members(rows + [row], keys + [key], k) == Members(rows, keys, k) + (if key == k then [row] else [])
  {
    assert (rows + [row])[..|rows|] == rows && (keys + [key])[..|keys|] == keys;
  }

  lemma {:induction false} NoMembers(rows: Relation, keys: seq<Row>, k: Row)
    requires |rows| == |keys| && k !in FirstSeen(keys)
    ensures Members(rows, keys, k) == []
  {
    if rows != [] {
      var n := |rows| - 1;
      NoMembers(rows[..n], keys[..n], k);
    }
  }

  function Advanced(rt: Runtime, call: AggCall<nat>, a: Accumulator, row: Row): Result<Accumulator, EvalError> {
    match ArgOf(rt, call, row) case Err(e) => Err(e) case Ok(x) => Push(a, x)
  }

  lemma {:induction false} FoldedMore(rt: Runtime, call: AggCall<nat>, rows: Relation, row: Row)
    requires Folded(rt, call, rows).Ok?
    ensures Folded(rt, call, rows + [row]) == Advanced(rt, call, Folded(rt, call, rows).value, row)
  {
    assert (rows + [row])[..|rows|] == rows;
  }

  // Another group's row changes nothing for this group.
  lemma {:induction false} GroupStays(rt: Runtime, aggs: seq<AggCall<nat>>, rows: Relation, keys: seq<Row>, row: Row,
                                      key: Row, g: Group)
    requires |rows| == |keys| && GroupOk(rt, aggs, rows, keys, g) && key != g.key
    ensures GroupOk(rt, aggs, rows + [row], keys + [key], g)
  {
    MembersMore(rows, keys, row, key, g.key);
    assert Members(rows + [row], keys + [key], g.key) == Members(rows, keys, g.key);
  }

  lemma {:induction false} GroupGrows(rt: Runtime, aggs: seq<AggCall<nat>>, rows: Relation, keys: seq<Row>, row: Row,
                                      g: Group, accs: seq<Accumulator>)
    requires |rows| == |keys| && GroupOk(rt, aggs, rows, keys, g) && |accs| == |aggs|
    requires forall a :: 0 <= a < |aggs| ==> Advanced(rt, aggs[a], g.accs[a], row) == Ok(accs[a])
    ensures GroupOk(rt, aggs, rows + [row], keys + [g.key], Group(g.key, accs))
  {
    MembersMore(rows, keys, row, g.key, g.key);
    forall a | 0 <= a < |aggs| ensures Folded(rt, aggs[a], Members(rows + [row], keys + [g.key], g.key)) ==
      Ok(accs[a]) {
      assert Folded(rt, aggs[a], Members(rows, keys, g.key)) == Ok(g.accs[a]);
      FoldedMore(rt, aggs[a], Members(rows, keys, g.key), row);
    }
  }

  lemma {:induction false} GroupBegins(rt: Runtime, aggs: seq<AggCall<nat>>, rows: Relation, keys: seq<Row>, k: Row,
                                       accs: seq<Accumulator>)
    requires |rows| == |keys| && k !in FirstSeen(keys) && |accs| == |aggs|
    requires forall a :: 0 <= a < |aggs| ==> accs[a] == Fresh(aggs[a].func, aggs[a].distinct)
    ensures GroupOk(rt, aggs, rows, keys, Group(k, accs))
  {
    NoMembers(rows, keys, k);
  }

  // The groups once the next row has gone to the group at `at`.
  lemma {:induction false} GroupsAdvance(rt: Runtime, aggs: seq<AggCall<nat>>, rows: Relation, keys: seq<Row>,
                                         groups: seq<Group>, row: Row, at: nat, accs: seq<Accumulator>)
    requires |rows| == |keys| && at < |groups| && |accs| == |aggs| == |groups[at].accs|
    requires forall g {:trigger GroupOk(rt, aggs, rows, keys, groups[g])} :: 0 <= g < |groups| ==>
             GroupOk(rt, aggs, rows, keys, groups[g])
    requires forall g, h :: 0 <= g < h < |groups| ==> groups[g].key != groups[h].key
    requires forall a :: 0 <= a < |aggs| ==> Advanced(rt, aggs[a], groups[at].accs[a], row) == Ok(accs[a])
    ensures var after := groups[at := Group(groups[at].key, accs)];
            forall g {:trigger GroupOk(rt, aggs, rows + [row], keys + [groups[at].key], after[g])} ::
              0 <= g < |after| ==> GroupOk(rt, aggs, rows + [row], keys + [groups[at].key], after[g])
  {
    var after := groups[at := Group(groups[at].key, accs)];
    forall g | 0 <= g < |after| ensures GroupOk(rt, aggs, rows + [row], keys + [groups[at].key], after[g]) {
      assert GroupOk(rt, aggs, rows, keys, groups[g]);
      if g == at {
        GroupGrows(rt, aggs, rows, keys, row, groups[at], accs);
      } else {
        GroupStays(rt, aggs, rows, keys, row, groups[at].key, groups[g]);
      }
    }
  }

  lemma {:induction false} SeenOnce(keys: seq<Row>, i: nat, j: nat)
    requires i < j < |FirstSeen(keys)|
    ensures FirstSeen(keys)[i] != FirstSeen(keys)[j]
  {
    var n := |keys| - 1;
    if j < |FirstSeen(keys[..n])| {
      SeenOnce(keys[..n], i, j);
    }
  }

  // ------------------------------------------------------------------ the pass

  function FreshAll(aggs: seq<AggCall<nat>>): (accs: seq<Accumulator>)
    ensures |accs| == |aggs| && forall a :: 0 <= a < |aggs| ==> accs[a] == Fresh(aggs[a].func, aggs[a].distinct)
  {
    seq(|aggs|, a requires 0 <= a < |aggs| => Fresh(aggs[a].func, aggs[a].distinct))
  }

  method AdvanceAll(rt: Runtime, aggs: seq<AggCall<nat>>, accs: seq<Accumulator>, row: Row)
    returns (r: Result<seq<Accumulator>, EvalError>, ghost failed: nat)
    requires |accs| == |aggs|
    ensures r.Ok? ==> |r.value| == |aggs| && forall a :: 0 <= a < |aggs| ==>
            Advanced(rt, aggs[a], accs[a], row) == Ok(r.value[a])
    ensures r.Err? ==> failed < |aggs| && Advanced(rt, aggs[failed], accs[failed], row) == Err(r.error)
  {
    var out: seq<Accumulator> := [];
    for a := 0 to |aggs|
      invariant |out| == a && forall b :: 0 <= b < a ==> Advanced(rt, aggs[b], accs[b], row) == Ok(out[b])
    {
      var next := Advanced(rt, aggs[a], accs[a], row);
      match next
      case Err(e) => return Err(e), a;
      case Ok(acc) => out := out + [acc];
    }
    return Ok(out), 0;
  }

  ghost predicate State(rt: Runtime, aggs: seq<AggCall<nat>>, rows: Relation, keys: seq<Row>, groups: seq<Group>,
                        positions: map<Row, nat>) {
    |rows| == |keys| && GroupsOk(rt, aggs, rows, keys, groups) && PositionsOk(positions, FirstSeen(keys))
  }

  // A row with a key not met before opens a group.
  method Place(rt: Runtime, aggs: seq<AggCall<nat>>, groups: seq<Group>, positions: map<Row, nat>, key: Row,
               ghost rows: Relation, ghost keys: seq<Row>)
    returns (groups': seq<Group>, positions': map<Row, nat>, at: nat)
    requires State(rt, aggs, rows, keys, groups, positions)
    ensures at < |groups'| && groups'[at].key == key && PositionsOk(positions', FirstSeen(keys + [key]))
    ensures |groups'| == |FirstSeen(keys + [key])| && forall g :: 0 <= g < |groups'| ==>
            groups'[g].key == FirstSeen(keys + [key])[g]
    ensures forall g {:trigger GroupOk(rt, aggs, rows, keys, groups'[g])} :: 0 <= g < |groups'| ==>
            GroupOk(rt, aggs, rows, keys, groups'[g])
  {
    FirstSeenMore(keys, key);
    if key in positions {
      return groups, positions, positions[key];
    }
    at := |groups|;
    GroupBegins(rt, aggs, rows, keys, key, FreshAll(aggs));
    groups' := groups + [Group(key, FreshAll(aggs))];
    positions' := positions[key := at];
    forall g | 0 <= g < |groups'| ensures GroupOk(rt, aggs, rows, keys, groups'[g]) {
      assert g < |groups| ==> GroupOk(rt, aggs, rows, keys, groups[g]);
    }
  }

  // The accumulated columns of one group.
  ghost predicate ResultsAre(rt: Runtime, aggs: seq<AggCall<nat>>, members: Relation, values: Row) {
    |values| == |aggs| && forall a :: 0 <= a < |aggs| ==>
      Folded(rt, aggs[a], members).Ok? && values[a] == Finish(Folded(rt, aggs[a], members).value)
  }

  // Without GROUP BY there is always one group, even over no rows.
  ghost function GroupsOf(groupBy: seq<Phys>, keys: seq<Row>): seq<Row> {
    if groupBy == [] && keys == [] then [[]] else FirstSeen(keys)
  }

  // One row per distinct key in order of first appearance: the key, then each aggregate over
  // exactly the rows with that key.
  ghost predicate Grouped(rt: Runtime, groupBy: seq<Phys>, aggs: seq<AggCall<nat>>, rows: Relation, keys: seq<Row>,
                          out: Relation)
    requires |rows| == |keys|
  {
    var ks := GroupsOf(groupBy, keys);
    && |out| == |ks|
    && forall g :: 0 <= g < |ks| ==> GroupRow(rt, aggs, Members(rows, keys, ks[g]), ks[g], out[g])
  }

  ghost predicate GroupRow(rt: Runtime, aggs: seq<AggCall<nat>>, members: Relation, key: Row, out: Row) {
    key <= out && ResultsAre(rt, aggs, members, out[|key|..])
  }

  // Why a pass stopped: the key of a row, or an aggregate over what its group held by then.
  ghost predicate Stopped(rt: Runtime, groupBy: seq<Phys>, aggs: seq<AggCall<nat>>, rows: Relation, keys: seq<Row>,
                          n: nat, e: EvalError) {
    && n < |rows| && n <= |keys| && KeysAre(rt, groupBy, rows[..n], keys[..n])
    && (KeyOf(rt, groupBy, rows[n]) == Err(e)
        || (n < |keys| && KeyOf(rt, groupBy, rows[n]) == Ok(keys[n])
            && exists a ::
              0 <= a < |aggs| && Folded(rt, aggs[a], Members(rows[..n + 1], keys[..n + 1], keys[n])) == Err(e)))
  }

  method FinishAll(accs: seq<Accumulator>) returns (values: Row)
    ensures |values| == |accs| && forall a :: 0 <= a < |accs| ==> values[a] == Finish(accs[a])
  {
    values := [];
    for a := 0 to |accs|
      invariant |values| == a && forall b :: 0 <= b < a ==> values[b] == Finish(accs[b])
    {
      values := values + [Finish(accs[a])];
    }
  }

  method Emit(rt: Runtime, aggs: seq<AggCall<nat>>, groups: seq<Group>, ghost rows: Relation, ghost keys: seq<Row>)
    returns (out: Relation)
    requires |rows| == |keys|
    requires forall g {:trigger GroupOk(rt, aggs, rows, keys, groups[g])} :: 0 <= g < |groups| ==>
             GroupOk(rt, aggs, rows, keys, groups[g])
    ensures |out| == |groups|
    ensures forall g :: 0 <= g < |groups| ==>
            GroupRow(rt, aggs, Members(rows, keys, groups[g].key), groups[g].key, out[g])
  {
    out := [];
    for g := 0 to |groups|
      invariant |out| == g
      invariant forall h :: 0 <= h < g ==> GroupRow(rt, aggs, Members(rows, keys, groups[h].key), groups[h].key, out[h])
    {
      var values := FinishAll(groups[g].accs);
      assert GroupOk(rt, aggs, rows, keys, groups[g]);
      assert (groups[g].key + values)[|groups[g].key|..] == values;
      out := out + [groups[g].key + values];
    }
  }

  // One row into its group.
  method Absorb(rt: Runtime, aggs: seq<AggCall<nat>>, groups: seq<Group>, positions: map<Row, nat>, key: Row,
                row: Row, ghost rows: Relation, ghost keys: seq<Row>)
    returns (r: Result<seq<Group>, EvalError>, positions': map<Row, nat>, ghost failed: nat)
    requires State(rt, aggs, rows, keys, groups, positions)
    ensures r.Ok? ==> State(rt, aggs, rows + [row], keys + [key], r.value, positions')
    ensures r.Err? ==>
            failed < |aggs| && Folded(rt, aggs[failed], Members(rows + [row], keys + [key], key)) == Err(r.error)
  {
    var groups', at;
    groups', positions', at := Place(rt, aggs, groups, positions, key, rows, keys);
    assert GroupOk(rt, aggs, rows, keys, groups'[at]);
    var moved;
    moved, failed := AdvanceAll(rt, aggs, groups'[at].accs, row);
    match moved
    case Err(e) =>
      MembersMore(rows, keys, row, key, key);
      FoldedMore(rt, aggs[failed], Members(rows, keys, key), row);
      return Err(e), positions', failed;
    case Ok(accs) =>
      forall g, h | 0 <= g < h < |groups'| ensures groups'[g].key != groups'[h].key {
        SeenOnce(keys + [key], g, h);
      }
      GroupsAdvance(rt, aggs, rows, keys, groups', row, at, accs);
      return Ok(groups'[at := Group(key, accs)]), positions', 0;
  }

  lemma {:induction false} KeysMore(rt: Runtime, groupBy: seq<Phys>, rows: Relation, keys: seq<Row>, row: Row, key: Row)
    requires KeysAre(rt, groupBy, rows, keys) && KeyOf(rt, groupBy, row) == Ok(key)
    ensures KeysAre(rt, groupBy, rows + [row], keys + [key])
  {
    var rows', keys' := rows + [row], keys + [key];
    forall i | 0 <= i < |rows'| ensures KeyIs(rt, groupBy, rows'[i], keys'[i]) {
      assert i < |rows| ==> KeyIs(rt, groupBy, rows[i], keys[i]);
    }
  }

  lemma {:induction false} KeyFails(rt: Runtime, groupBy: seq<Phys>, aggs: seq<AggCall<nat>>, rows: Relation,
                                    keys: seq<Row>, n: nat, e: EvalError)
    requires n < |rows| && KeysAre(rt, groupBy, rows[..n], keys) && KeyOf(rt, groupBy, rows[n]) == Err(e)
    ensures Stopped(rt, groupBy, aggs, rows, keys, n, e)
  {
    assert keys[..n] == keys;
  }

  lemma {:induction false} FoldFails(rt: Runtime, groupBy: seq<Phys>, aggs: seq<AggCall<nat>>, rows: Relation,
                                     keys: seq<Row>, n: nat, key: Row, a: nat, e: EvalError)
    requires n < |rows| && KeysAre(rt, groupBy, rows[..n], keys) && KeyOf(rt, groupBy, rows[n]) == Ok(key)
    requires a < |aggs| && Folded(rt, aggs[a], Members(rows[..n] + [rows[n]], keys + [key], key)) == Err(e)
    ensures Stopped(rt, groupBy, aggs, rows, keys + [key], n, e)
  {
    var keys' := keys + [key];
    assert keys'[..n] == keys && keys'[..n + 1] == keys';
    assert rows[..n] + [rows[n]] == rows[..n + 1];
  }

  method Gather(rt: Runtime, input: Relation, groupBy: seq<Phys>, aggs: seq<AggCall<nat>>)
    returns (r: Result<seq<Group>, EvalError>, ghost keys: seq<Row>, ghost n: nat)
    ensures r.Ok? ==> KeysAre(rt, groupBy, input, keys) && GroupsOk(rt, aggs, input, keys, r.value)
    ensures r.Err? ==> Stopped(rt, groupBy, aggs, input, keys, n, r.error)
  {
    var groups: seq<Group>, positions: map<Row, nat> := [], map[];
    keys := [];
    for i := 0 to |input|
      invariant KeysAre(rt, groupBy, input[..i], keys) && State(rt, aggs, input[..i], keys, groups, positions)
    {
      var key := KeyOf(rt, groupBy, input[i]);
      if key.Err? {
        KeyFails(rt, groupBy, aggs, input, keys, i, key.error);
        return Err(key.error), keys, i;
      }
      var next, positions', failed := Absorb(rt, aggs, groups, positions, key.value, input[i], input[..i], keys);
      if next.Err? {
        FoldFails(rt, groupBy, aggs, input, keys, i, key.value, failed, next.error);
        return Err(next.error), keys + [key.value], i;
      }
      KeysMore(rt, groupBy, input[..i], keys, input[i], key.value);
      assert input[..i + 1] == input[..i] + [input[i]];
      groups, positions, keys := next.value, positions', keys + [key.value];
    }
    assert input[..|input|] == input;
    return Ok(groups), keys, 0;
  }

  method RunAggregate(rt: Runtime, input: Relation, groupBy: seq<Phys>, aggs: seq<AggCall<nat>>)
    returns (r: Result<Relation, EvalError>, ghost keys: seq<Row>, ghost n: nat)
    ensures r.Ok? ==> KeysAre(rt, groupBy, input, keys) && Grouped(rt, groupBy, aggs, input, keys, r.value)
    ensures r.Err? ==> Stopped(rt, groupBy, aggs, input, keys, n, r.error)
  {
    var gathered;
    gathered, keys, n := Gather(rt, input, groupBy, aggs);
    if gathered.Err? {
      return Err(gathered.error), keys, n;
    }
    var groups := gathered.value;
    NoneSeen(keys);
    if groups == [] && groupBy == [] {
      GroupBegins(rt, aggs, input, keys, [], FreshAll(aggs));
      groups := [Group([], FreshAll(aggs))];
      assert GroupOk(rt, aggs, input, keys, groups[0]);
    }
    var out := Emit(rt, aggs, groups, input, keys);
    return Ok(out), keys, n;
  }

  lemma {:induction false} NoneSeen(keys: seq<Row>)
    ensures FirstSeen(keys) == [] <==> keys == []
  {
    if keys != [] {
      NoneSeen(keys[..|keys| - 1]);
    }
  }
}
