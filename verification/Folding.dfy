// Folding a list into one tree by halving instead of chaining.
module Folding {

  // One round: neighbours are joined, an odd one out is kept.
  function Paired<T>(ts: seq<T>, join: (T, T) -> T): (r: seq<T>)
    ensures |r| == (|ts| + 1) / 2
    decreases |ts|
  {
    if |ts| <= 1 then ts else [join(ts[0], ts[1])] + Paired(ts[2..], join)
  }

  function Fold<T>(ts: seq<T>, join: (T, T) -> T): T
    requires ts != []
    decreases |ts|
  {
    if |ts| == 1 then ts[0] else Fold(Paired(ts, join), join)
  }

  // Left to right, one at a time.
  function Chain<T>(ts: seq<T>, join: (T, T) -> T): T
    requires ts != []
    decreases |ts|
  {
    if |ts| == 1 then ts[0] else join(Chain(ts[..|ts| - 1], join), ts[|ts| - 1])
  }

  method PairUp<T>(ts: seq<T>, join: (T, T) -> T) returns (folded: seq<T>)
    ensures folded == Paired(ts, join)
  {
    folded := [];
    var i := 0;
    while i < |ts|
      invariant 0 <= i <= |ts| + 1
      invariant folded + Paired(ts[Within(i, |ts|)..], join) == Paired(ts, join)
    {
      if i + 1 < |ts| {
        assert ts[i..][2..] == ts[i + 2..];
        folded := folded + [join(ts[i], ts[i + 1])];
      } else {
        assert ts[i..] == [ts[i]];
        folded := folded + [ts[i]];
      }
      i := i + 2;
    }
  }

  ghost function Within(i: nat, n: nat): (k: nat)
    ensures k <= n
  {
    if i <= n then i else n
  }

  method Balance<T>(ts: seq<T>, join: (T, T) -> T) returns (r: T)
    requires ts != []
    ensures r == Fold(ts, join)
  {
    var tests := ts;
    while |tests| > 1
      invariant tests != [] && Fold(tests, join) == Fold(ts, join)
      decreases |tests|
    {
      tests := PairUp(tests, join);
    }
    r := tests[0];
  }

  // -------------------------------------------------- halving changes nothing

  ghost predicate Associative<M(!new)>(plus: (M, M) -> M) {
    forall a, b, c :: plus(plus(a, b), c) == plus(a, plus(b, c))
  }

  // `means` turns joining into `plus`.
  ghost predicate Carries<T(!new), M(!new)>(means: T -> M, join: (T, T) -> T, plus: (M, M) -> M) {
    forall a, b :: means(join(a, b)) == plus(means(a), means(b))
  }

  ghost function Mapped<T, M>(ts: seq<T>, means: T -> M): seq<M> { seq(|ts|, i requires 0 <= i < |ts| => means(ts[i])) }

  lemma {:induction false} ChainCons<M(!new)>(ms: seq<M>, plus: (M, M) -> M)
    requires |ms| >= 2 && Associative(plus)
    ensures Chain(ms, plus) == plus(ms[0], Chain(ms[1..], plus))
  {
    var n := |ms| - 1;
    if n >= 2 {
      ChainCons(ms[..n], plus);
      assert ms[..n][1..] == ms[1..][..n - 1];
      assert ms[1..][n - 1] == ms[n];
    }
  }

  lemma {:induction false} PairedChain<M(!new)>(ms: seq<M>, plus: (M, M) -> M)
    requires ms != [] && Associative(plus)
    ensures Chain(Paired(ms, plus), plus) == Chain(ms, plus)
    decreases |ms|
  {
    if |ms| >= 3 {
      var rest := ms[2..];
      PairedChain(rest, plus);
      var p := Paired(ms, plus);
      assert p[1..] == Paired(rest, plus);
      ChainCons(p, plus);
      ChainCons(ms, plus);
      ChainCons(ms[1..], plus);
      assert ms[1..][1..] == rest;
    }
  }

  lemma {:induction false} FoldIsChain<M(!new)>(ms: seq<M>, plus: (M, M) -> M)
    requires ms != [] && Associative(plus)
    ensures Fold(ms, plus) == Chain(ms, plus)
    decreases |ms|
  {
    if |ms| > 1 {
      PairedChain(ms, plus);
      FoldIsChain(Paired(ms, plus), plus);
    }
  }

  lemma {:induction false} PairedCarries<T(!new),
                                           M(!new)>(ts: seq<T>, join: (T, T) -> T, means: T -> M, plus: (M, M) -> M)
    requires Carries(means, join, plus)
    ensures Mapped(Paired(ts, join), means) == Paired(Mapped(ts, means), plus)
    decreases |ts|
  {
    if |ts| >= 2 {
      PairedCarries(ts[2..], join, means, plus);
      assert Mapped(ts, means)[2..] == Mapped(ts[2..], means);
    }
  }

  lemma {:induction false} FoldCarries<T(!new),
                                         M(!new)>(ts: seq<T>, join: (T, T) -> T, means: T -> M, plus: (M, M) -> M)
    requires ts != [] && Carries(means, join, plus)
    ensures means(Fold(ts, join)) == Fold(Mapped(ts, means), plus)
    decreases |ts|
  {
    if |ts| > 1 {
      PairedCarries(ts, join, means, plus);
      FoldCarries(Paired(ts, join), join, means, plus);
    }
  }

  lemma {:induction false} ChainCarries<T(!new),
                                          M(!new)>(ts: seq<T>, join: (T, T) -> T, means: T -> M, plus: (M, M) -> M)
    requires ts != [] && Carries(means, join, plus)
    ensures means(Chain(ts, join)) == Chain(Mapped(ts, means), plus)
    decreases |ts|
  {
    var n := |ts| - 1;
    if n > 0 {
      ChainCarries(ts[..n], join, means, plus);
      assert Mapped(ts, means)[..n] == Mapped(ts[..n], means);
    }
  }

  // ---------------------------------------------------------------- height

  function Pow2(k: nat): (p: nat)
    ensures p >= 1
  {
    if k == 0 then 1 else 2 * Pow2(k - 1)
  }

  function Larger(a: nat, b: nat): nat { if a < b then b else a }

  // Joining adds one level at most.
  ghost predicate Climbs<T(!new)>(height: T -> nat, join: (T, T) -> T) {
    forall a, b :: height(join(a, b)) <= 1 + Larger(height(a), height(b))
  }

  lemma {:induction false} PairedClimbs<T(!new)>(ts: seq<T>, join: (T, T) -> T, height: T -> nat, h: nat)
    requires Climbs(height, join) && forall i :: 0 <= i < |ts| ==> height(ts[i]) <= h
    ensures forall i :: 0 <= i < |Paired(ts, join)| ==> height(Paired(ts, join)[i]) <= h + 1
    decreases |ts|
  {
    if |ts| >= 2 {
      PairedClimbs(ts[2..], join, height, h);
      var p := Paired(ts, join);
      forall i | 0 <= i < |p| ensures height(p[i]) <= h + 1 {
        assert i > 0 ==> p[i] == Paired(ts[2..], join)[i - 1];
      }
    }
  }

  // A list of at most 2^k terms gains at most k levels.
  lemma {:induction false} LogarithmicHeight<T(!new)>(ts: seq<T>, join: (T, T) -> T, height: T -> nat, k: nat, h: nat)
    requires ts != [] && Climbs(height, join) && |ts| <= Pow2(k) && forall i :: 0 <= i < |ts| ==> height(ts[i]) <= h
    ensures height(Fold(ts, join)) <= h + k
    decreases |ts|
  {
    if |ts| > 1 {
      assert k > 0;
      PairedClimbs(ts, join, height, h);
      LogarithmicHeight(Paired(ts, join), join, height, k - 1, h + 1);
    }
  }

  // ------------------------------------------------------- what joining keeps

  ghost predicate ClosedUnder<T(!new)>(ok: T -> bool, join: (T, T) -> T) {
    forall a, b :: ok(a) && ok(b) ==> ok(join(a, b))
  }

  lemma {:induction false} PairedKeeps<T(!new)>(ts: seq<T>, join: (T, T) -> T, ok: T -> bool)
    requires ClosedUnder(ok, join) && forall i :: 0 <= i < |ts| ==> ok(ts[i])
    ensures forall i :: 0 <= i < |Paired(ts, join)| ==> ok(Paired(ts, join)[i])
    decreases |ts|
  {
    if |ts| >= 2 {
      PairedKeeps(ts[2..], join, ok);
      var p := Paired(ts, join);
      forall i | 0 <= i < |p| ensures ok(p[i]) {
        assert i > 0 ==> p[i] == Paired(ts[2..], join)[i - 1];
      }
    }
  }

  lemma {:induction false} FoldKeeps<T(!new)>(ts: seq<T>, join: (T, T) -> T, ok: T -> bool)
    requires ts != [] && ClosedUnder(ok, join) && forall i :: 0 <= i < |ts| ==> ok(ts[i])
    ensures ok(Fold(ts, join))
    decreases |ts|
  {
    if |ts| > 1 {
      PairedKeeps(ts, join, ok);
      FoldKeeps(Paired(ts, join), join, ok);
    }
  }
}
