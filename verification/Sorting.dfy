// ORDER BY: comparing rows by their keys, and sorting without disturbing equal ones.
module Sorting {
  import opened Wrappers
  import opened Values
  import opened Ordering

  datatype KeyOrder = KeyOrder(asc: bool, nullsFirst: bool)

  // --------------------------------------------------------- comparing keys

  function CompareOne(a: Value, b: Value, k: KeyOrder): Result<Order, EvalError> {
    if a == Null && b == Null then Ok(Equal)
    else if a == Null then Ok(if k.nullsFirst then Less else Greater)
    else if b == Null then Ok(if k.nullsFirst then Greater else Less)
    else match Compare(a, b)
      case Err(e) => Err(e)
      case Ok(None) => Ok(Equal)
      case Ok(Some(o)) => Ok(if k.asc then o else Reversed(o))
  }

  // The first key that tells them apart decides.
  function CompareKeys(a: Row, b: Row, ks: seq<KeyOrder>): Result<Order, EvalError>
    requires |a| == |b| == |ks|
    decreases |ks|
  {
    if ks == [] then Ok(Equal)
    else match CompareOne(a[0], b[0], ks[0])
      case Err(e) => Err(e)
      case Ok(o) => if o != Equal then Ok(o) else CompareKeys(a[1..], b[1..], ks[1..])
  }

  // Any two values of a key column can be compared.
  ghost predicate ColumnComparable(a: Value, b: Value) { a != Null && b != Null ==> Comparable(a, b) }

  ghost predicate KeysComparable(a: Row, b: Row) {
    |a| == |b| && forall i :: 0 <= i < |a| ==> ColumnComparable(a[i], b[i])
  }

  lemma {:induction false} OneFlips(a: Value, b: Value, k: KeyOrder)
    requires ColumnComparable(a, b)
    ensures CompareOne(a, b, k).Ok? && CompareOne(b, a, k) == Ok(Reversed(CompareOne(a, b, k).value))
  {
    if a != Null && b != Null {
      CompareFlips(a, b);
    }
  }

  lemma {:induction false} OneChains(a: Value, b: Value, c: Value, k: KeyOrder)
    requires ColumnComparable(a, b) && ColumnComparable(b, c) && ColumnComparable(a, c)
    ensures CompareOne(a, b, k).Ok? && CompareOne(b, c, k).Ok? && CompareOne(a, c, k).Ok?
    ensures Chains(CompareOne(a, b, k).value, CompareOne(b, c, k).value, CompareOne(a, c, k).value)
  {
    if a != Null && b != Null && c != Null {
      CompareChains(a, b, c);
      CompareFlips(a, b);
      CompareFlips(b, c);
      CompareFlips(a, c);
      CompareChains(c, b, a);
    }
  }

  lemma {:induction false} KeysTail(a: Row, b: Row)
    requires KeysComparable(a, b) && a != []
    ensures ColumnComparable(a[0], b[0]) && KeysComparable(a[1..], b[1..])
  {
  }

  lemma {:induction false} KeysFlip(a: Row, b: Row, ks: seq<KeyOrder>)
    requires KeysComparable(a, b) && |a| == |ks|
    ensures CompareKeys(a, b, ks).Ok? && CompareKeys(b, a, ks) == Ok(Reversed(CompareKeys(a, b, ks).value))
    decreases |ks|
  {
    if ks != [] {
      KeysTail(a, b);
      OneFlips(a[0], b[0], ks[0]);
      KeysFlip(a[1..], b[1..], ks[1..]);
    }
  }

  lemma {:induction false} KeysChain(a: Row, b: Row, c: Row, ks: seq<KeyOrder>)
    requires KeysComparable(a, b) && KeysComparable(b, c) && KeysComparable(a, c) && |a| == |ks|
    ensures CompareKeys(a, b, ks).Ok? && CompareKeys(b, c, ks).Ok? && CompareKeys(a, c, ks).Ok?
    ensures Chains(CompareKeys(a, b, ks).value, CompareKeys(b, c, ks).value, CompareKeys(a, c, ks).value)
    decreases |ks|
  {
    if ks != [] {
      KeysTail(a, b);
      KeysTail(b, c);
      KeysTail(a, c);
      OneChains(a[0], b[0], c[0], ks[0]);
      OneFlips(a[0], b[0], ks[0]);
      OneFlips(b[0], c[0], ks[0]);
      OneFlips(a[0], c[0], ks[0]);
      OneChains(c[0], b[0], a[0], ks[0]);
      KeysChain(a[1..], b[1..], c[1..], ks[1..]);
    }
  }

  // ------------------------------------------------------------ stable sorting

  // A row with its evaluated keys.
  datatype Keyed = Keyed(key: Row, row: Row)

  // Strictly after.
  predicate After(a: Keyed, b: Keyed, ks: seq<KeyOrder>) {
    |a.key| == |b.key| == |ks| && CompareKeys(a.key, b.key, ks) == Ok(Greater)
  }

  // Behind everything it is not strictly before.
  function Insert(x: Keyed, s: seq<Keyed>, ks: seq<KeyOrder>): seq<Keyed> {
    if s == [] then [x]
    else
      var n := |s| - 1;
      if After(s[n], x, ks) then Insert(x, s[..n], ks) + [s[n]] else s + [x]
  }

  function StableSort(s: seq<Keyed>, ks: seq<KeyOrder>): seq<Keyed> {
    if s == [] then [] else Insert(s[|s| - 1], StableSort(s[..|s| - 1], ks), ks)
  }

  ghost predicate Fit(x: Keyed, y: Keyed, n: nat) { |x.key| == n && KeysComparable(x.key, y.key) }

  ghost predicate AllComparable(s: seq<Keyed>, n: nat) {
    forall x, y {:trigger Fit(x, y, n)} :: x in s && y in s ==> Fit(x, y, n)
  }

  ghost predicate InOrder(s: seq<Keyed>, ks: seq<KeyOrder>) {
    forall i, j :: 0 <= i < j < |s| ==> !After(s[i], s[j], ks)
  }

  lemma {:induction false} InsertHolds(x: Keyed, s: seq<Keyed>, ks: seq<KeyOrder>)
    ensures multiset(Insert(x, s, ks)) == multiset(s) + multiset{x}
  {
    if s != [] {
      var n := |s| - 1;
      assert s == s[..n] + [s[n]];
      InsertHolds(x, s[..n], ks);
    }
  }

  lemma {:induction false} SortHolds(s: seq<Keyed>, ks: seq<KeyOrder>)
    ensures multiset(StableSort(s, ks)) == multiset(s)
  {
    if s != [] {
      var n := |s| - 1;
      assert s == s[..n] + [s[n]];
      SortHolds(s[..n], ks);
      InsertHolds(s[n], StableSort(s[..n], ks), ks);
    }
  }

  function Kept(s: seq<Keyed>, keep: Row -> bool): seq<Keyed> {
    if s == [] then []
    else
      var n := |s| - 1;
      Kept(s[..n], keep) + (if keep(s[n].row) then [s[n]] else [])
  }

  lemma {:induction false} NotAfterChains(a: Keyed, b: Keyed, c: Keyed, ks: seq<KeyOrder>)
    requires Fit(a, b, |ks|) && Fit(b, c, |ks|) && Fit(a, c, |ks|) && !After(a, b, ks) && !After(b, c, ks)
    ensures !After(a, c, ks)
  {
    KeysChain(a.key, b.key, c.key, ks);
  }

  lemma {:induction false} AfterFlips(a: Keyed, b: Keyed, ks: seq<KeyOrder>)
    requires Fit(a, b, |ks|) && After(a, b, ks)
    ensures !After(b, a, ks)
  {
    KeysFlip(a.key, b.key, ks);
  }

  lemma {:induction false} SomeComparable(s: seq<Keyed>, t: seq<Keyed>, n: nat)
    requires AllComparable(s, n) && forall x :: x in t ==> x in s
    ensures AllComparable(t, n)
  {
    forall x, y | x in t && y in t ensures Fit(x, y, n) {
      assert x in s && y in s;
    }
  }

  lemma {:induction false} InsertAt(x: Keyed, s: seq<Keyed>, ks: seq<KeyOrder>)
    ensures forall y :: y in Insert(x, s, ks) <==> y in s || y == x
  {
    InsertHolds(x, s, ks);
    forall y ensures y in Insert(x, s, ks) <==> y in s || y == x {
      assert y in Insert(x, s, ks) <==> y in multiset(Insert(x, s, ks));
      assert y in s <==> y in multiset(s);
    }
  }

  lemma {:induction false} InOrderMore(s: seq<Keyed>, x: Keyed, ks: seq<KeyOrder>)
    requires InOrder(s, ks) && forall y :: y in s ==> !After(y, x, ks)
    ensures InOrder(s + [x], ks)
  {
    var t := s + [x];
    forall i, j | 0 <= i < j < |t| ensures !After(t[i], t[j], ks) {
      assert j < |s| || t[i] in s;
    }
  }

  lemma {:induction false} InsertInOrder(x: Keyed, s: seq<Keyed>, ks: seq<KeyOrder>)
    requires InOrder(s, ks) && AllComparable(s + [x], |ks|)
    ensures InOrder(Insert(x, s, ks), ks)
  {
    if s != [] {
      var last, front := s[|s| - 1], s[..|s| - 1];
      if After(last, x, ks) {
        assert last in s + [x] && x in s + [x] && Fit(last, x, |ks|);
        SomeComparable(s + [x], front + [x], |ks|);
        InsertInOrder(x, front, ks);
        InsertAt(x, front, ks);
        AfterFlips(last, x, ks);
        forall y | y in Insert(x, front, ks) ensures !After(y, last, ks) {
          assert y == x || y in front;
        }
        InOrderMore(Insert(x, front, ks), last, ks);
      } else {
        forall y | y in s ensures !After(y, x, ks) {
          NoneAfter(y, x, s, ks);
        }
        InOrderMore(s, x, ks);
      }
    }
  }

  lemma {:induction false} KeptIn(s: seq<Keyed>, keep: Row -> bool)
    ensures forall x :: x in Kept(s, keep) <==> x in s && keep(x.row)
  {
    if s != [] {
      var n := |s| - 1;
      assert s == s[..n] + [s[n]];
      KeptIn(s[..n], keep);
    }
  }

  // Behind a list none of whose elements is after it, an element goes last.
  lemma {:induction false} InsertLast(x: Keyed, s: seq<Keyed>, ks: seq<KeyOrder>)
    requires forall y :: y in s ==> !After(y, x, ks)
    ensures Insert(x, s, ks) == s + [x]
  {
    if s != [] {
      assert s[|s| - 1] in s;
    }
  }

  lemma {:induction false} KeptMore(s: seq<Keyed>, x: Keyed, keep: Row -> bool)
    ensures Kept(s + [x], keep) == if keep(x.row) then Kept(s, keep) + [x] else Kept(s, keep)
  {
    assert (s + [x])[..|s|] == s;
    assert Kept(s, keep) + [] == Kept(s, keep);
  }

  lemma {:induction false} InsertMore(x: Keyed, s: seq<Keyed>, last: Keyed, ks: seq<KeyOrder>)
    ensures Insert(x, s + [last], ks) == if After(last, x, ks) then Insert(x, s, ks) + [last] else s + [last] + [x]
  {
    assert (s + [last])[..|s|] == s;
  }

  lemma {:induction false} InsertKeptBefore(x: Keyed, front: seq<Keyed>, last: Keyed, ks: seq<KeyOrder>,
                                            keep: Row -> bool)
    requires After(last, x, ks)
    requires Kept(Insert(x, front, ks), keep) == if keep(x.row) then Insert(x, Kept(front, keep), ks)
             else Kept(front, keep)
    ensures Kept(Insert(x, front + [last], ks), keep)
         == if keep(x.row) then Insert(x, Kept(front + [last], keep), ks) else Kept(front + [last], keep)
  {
    InsertMore(x, front, last, ks);
    KeptMore(Insert(x, front, ks), last, keep);
    KeptMore(front, last, keep);
    InsertMore(x, Kept(front, keep), last, ks);
  }

  lemma {:induction false} InsertKept(x: Keyed, s: seq<Keyed>, ks: seq<KeyOrder>, keep: Row -> bool)
    requires InOrder(s, ks) && AllComparable(s + [x], |ks|)
    ensures Kept(Insert(x, s, ks), keep) == if keep(x.row) then Insert(x, Kept(s, keep), ks) else Kept(s, keep)
  {
    if s == [] {
      KeptMore([], x, keep);
      assert [] + [x] == [x];
    } else if After(s[|s| - 1], x, ks) {
      var last, front := s[|s| - 1], s[..|s| - 1];
      assert s == front + [last];
      SomeComparable(s + [x], front + [x], |ks|);
      InsertKept(x, front, ks, keep);
      InsertKeptBefore(x, front, last, ks, keep);
    } else {
      KeptBehind(x, s, ks, keep);
      KeptMore(s, x, keep);
    }
  }

  lemma {:induction false} KeptBehind(x: Keyed, s: seq<Keyed>, ks: seq<KeyOrder>, keep: Row -> bool)
    requires InOrder(s, ks) && AllComparable(s + [x], |ks|) && s != [] && !After(s[|s| - 1], x, ks)
    ensures Insert(x, Kept(s, keep), ks) == Kept(s, keep) + [x]
  {
    KeptIn(s, keep);
    forall y | y in Kept(s, keep) ensures !After(y, x, ks) {
      NoneAfter(y, x, s, ks);
    }
    InsertLast(x, Kept(s, keep), ks);
  }

  lemma {:induction false} NoneAfter(y: Keyed, x: Keyed, s: seq<Keyed>, ks: seq<KeyOrder>)
    requires InOrder(s, ks) && AllComparable(s + [x], |ks|) && y in s && !After(s[|s| - 1], x, ks)
    ensures !After(y, x, ks)
  {
    var i :| 0 <= i < |s| && s[i] == y;
    var last := s[|s| - 1];
    assert y in s + [x] && last in s + [x] && x in s + [x];
    assert Fit(y, last, |ks|) && Fit(last, x, |ks|) && Fit(y, x, |ks|);
    if i < |s| - 1 {
      NotAfterChains(y, last, x, ks);
    }
  }

  lemma {:induction false} SortedIn(s: seq<Keyed>, ks: seq<KeyOrder>)
    ensures forall y :: y in StableSort(s, ks) <==> y in s
  {
    SortHolds(s, ks);
    forall y ensures y in StableSort(s, ks) <==> y in s {
      assert y in StableSort(s, ks) <==> y in multiset(StableSort(s, ks));
      assert y in s <==> y in multiset(s);
    }
  }

  lemma {:induction false} SortMore(s: seq<Keyed>, x: Keyed, ks: seq<KeyOrder>)
    ensures StableSort(s + [x], ks) == Insert(x, StableSort(s, ks), ks)
  {
    assert (s + [x])[..|s|] == s;
  }

  // A filter may go through a stable sort.
  lemma {:induction false} SortKept(s: seq<Keyed>, ks: seq<KeyOrder>, keep: Row -> bool)
    requires AllComparable(s, |ks|)
    ensures InOrder(StableSort(s, ks), ks) && Kept(StableSort(s, ks), keep) == StableSort(Kept(s, keep), ks)
  {
    if s != [] {
      var x, front := s[|s| - 1], s[..|s| - 1];
      assert s == front + [x];
      SomeComparable(s, front, |ks|);
      SortKept(front, ks, keep);
      var t := StableSort(front, ks);
      SortedIn(front, ks);
      SomeComparable(s, t + [x], |ks|);
      SortMore(front, x, ks);
      InsertInOrder(x, t, ks);
      InsertKept(x, t, ks, keep);
      KeptMore(front, x, keep);
      SortMore(Kept(front, keep), x, ks);
    }
  }
}
