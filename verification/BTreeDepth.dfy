// All leaves share one depth, and it stays far below the descent limit: every internal node has
// at least two children, pages are named by distinct 32-bit ids, so there are at most 33 levels.
module BTreeDepth {
  import opened Bytes
  import opened Folding
  import opened PageImage
  import opened BTreeModel
  import opened BTreeShape
  import opened BTreeInvariant

  const DESCENT_LIMIT: nat := 64

  lemma {:induction false} Pow2Grows(a: nat, b: nat)
    requires a <= b
    ensures Pow2(a) <= Pow2(b)
    decreases b - a
  {
    if a < b {
      Pow2Grows(a, b - 1);
    }
  }

  lemma {:induction false} LevelsDouble(pages: Pages, levels: seq<Level>, root: PageId, k: nat)
    requires Structure(pages, levels, root) && k < |levels|
    ensures |levels[k]| >= Pow2(|levels| - 1 - k)
    decreases |levels| - k
  {
    if k + 1 < |levels| {
      LevelsDouble(pages, levels, root, k + 1);
      assert LinkedAt(pages, levels, k + 1);
      ExpandHead(pages, levels[k + 1]);
    }
  }

  lemma {:induction false} SubsetBound(s: set<PageId>, n: nat)
    requires forall x :: x in s ==> x < n
    ensures |s| <= n
  {
    if n == 0 {
      assert forall x :: x !in s;
    } else {
      var rest := set x | x in s && x < n - 1;
      SubsetBound(rest, n - 1);
      if n - 1 in s {
        var top: PageId := n - 1;
        assert s == rest + {top};
      } else {
        assert s == rest;
      }
    }
  }

  lemma {:induction false} DistinctCount(s: seq<PageId>)
    requires forall i, j :: 0 <= i < j < |s| ==> s[i] != s[j]
    ensures |ChainSet(s)| == |s|
  {
    if s != [] {
      var front, last := s[..|s| - 1], s[|s| - 1];
      DistinctCount(front);
      assert ChainSet(s) == ChainSet(front) + {last} by {
        assert s == front + [last];
      }
      assert last !in ChainSet(front);
    }
  }

  lemma {:induction false} DistinctIdsBound(s: seq<PageId>)
    requires forall i, j :: 0 <= i < j < |s| ==> s[i] != s[j]
    ensures |s| <= U32
  {
    DistinctCount(s);
    SubsetBound(ChainSet(s), U32);
  }

  lemma {:induction false} Pow2Of32()
    ensures Pow2(32) == U32
  {
    assert Pow2(4) == 16;
    assert Pow2(8) == 16 * Pow2(4);
    assert Pow2(12) == 16 * Pow2(8);
    assert Pow2(16) == 16 * Pow2(12);
    assert Pow2(20) == 16 * Pow2(16);
    assert Pow2(24) == 16 * Pow2(20);
    assert Pow2(28) == 16 * Pow2(24);
    assert Pow2(32) == 16 * Pow2(28);
  }

  lemma {:induction false} DepthBound(pages: Pages, root: PageId, t: Tree)
    requires Inv(pages, root, t)
    ensures |t.levels| <= 33 < DESCENT_LIMIT
  {
    LevelsDouble(pages, t.levels, root, 0);
    var ids := LevelIds(t.levels[0]);
    UniqueParts(t);
    forall i, j | 0 <= i < j < |ids| ensures ids[i] != ids[j] {
      NodesDistinct(t.levels, 0, i, 0, j);
    }
    DistinctIdsBound(ids);
    Pow2Of32();
    assert Pow2(33) == 2 * Pow2(32);
    if |t.levels| > 33 {
      Pow2Grows(33, |t.levels| - 1);
    }
  }
}
