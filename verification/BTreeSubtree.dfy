// Which pages lie below a node, and that the root has the whole tree below it. How often a page
// occurs is counted page by page, so that everything here is a sum of numbers.
module BTreeSubtree {
  import opened PageImage
  import opened BTreeModel
  import opened BTreeShape
  import opened BTreeInvariant

  ghost function Kids(pages: Pages, e: Entry): nat {
    if e.id in pages && pages[e.id].Slotted? then |pages[e.id].items| + 1 else 0
  }

  // Where, in the level below, the children of node `q` begin.
  ghost function Start(pages: Pages, lvl: Level, q: nat): nat
    requires q <= |lvl|
  {
    if q == 0 then 0 else Start(pages, lvl, q - 1) + Kids(pages, lvl[q - 1])
  }

  ghost function Is(a: PageId, p: PageId): nat {
    if a == p then 1 else 0
  }

  // How often `p` occurs in the subtree at position `q` of level `k`, and in a run of subtrees.
  ghost function SubOwn(pages: Pages, t: Tree, k: nat, q: nat, p: PageId): nat
    decreases k, 0
  {
    if k >= |t.levels| || q >= |t.levels[k]| then 0
    else if k == 0 then Is(t.levels[0][q].id, p) + (if q < |t.leaves| then ChainsOf(t.leaves[q].cells)[p] else 0)
    else Is(t.levels[k][q].id, p) + RangeOwn(pages, t, k - 1, Start(pages, t.levels[k], q),
      Start(pages, t.levels[k], q + 1), p)
  }

  ghost function RangeOwn(pages: Pages, t: Tree, k: nat, a: nat, b: nat, p: PageId): nat
    decreases k, 1, b
  {
    if a >= b then 0 else RangeOwn(pages, t, k, a, b - 1, p) + SubOwn(pages, t, k, b - 1, p)
  }

  lemma {:induction false} RangeAppend(pages: Pages, t: Tree, k: nat, a: nat, b: nat, c: nat, p: PageId)
    requires a <= b <= c
    ensures RangeOwn(pages, t, k, a, c, p) == RangeOwn(pages, t, k, a, b, p) + RangeOwn(pages, t, k, b, c, p)
  {
    if b < c {
      RangeAppend(pages, t, k, a, b, c - 1, p);
    }
  }

  lemma {:induction false} StartIs(pages: Pages, lvl: Level, q: nat)
    requires NodesOk(pages, lvl) && q <= |lvl|
    ensures NodesOk(pages, lvl[..q]) && Start(pages, lvl, q) == |Expand(pages, lvl[..q])|
  {
    if q > 0 {
      StartIs(pages, lvl, q - 1);
      var e := lvl[q - 1];
      assert NodesOk(pages, [e]);
      assert lvl[..q] == lvl[..q - 1] + [e];
      ExpandAppend(pages, lvl[..q - 1], [e]);
      ExpandOne(pages, e);
    }
  }

  // The children of node `q` are a run of the level below.
  lemma {:induction false} ChildRun(pages: Pages, above: Level, below: Level, q: nat)
    requires Linked(pages, above, below) && q < |above|
    ensures var s, kids := Start(pages, above, q), Children(pages[above[q].id], above[q].low);
            && Start(pages, above, q + 1) == s + |kids| <= |below|
            && forall j :: 0 <= j < |kids| ==> below[s + j] == kids[j]
  {
    StartIs(pages, above, q);
    ExpandAround(pages, above, q);
  }

  // How often `p` is one of the first `n` nodes of a level.
  ghost function Nodes(lvl: Level, n: nat, p: PageId): nat
    requires n <= |lvl|
  {
    if n == 0 then 0 else Nodes(lvl, n - 1, p) + Is(lvl[n - 1].id, p)
  }

  lemma {:induction false} NodesCount(lvl: Level, n: nat, p: PageId)
    requires n <= |lvl|
    ensures Nodes(lvl, n, p) == multiset(LevelIds(lvl[..n]))[p]
  {
    if n == 0 {
      assert LevelIds(lvl[..0]) == [];
    } else {
      NodesCount(lvl, n - 1, p);
      assert LevelIds(lvl[..n]) == LevelIds(lvl[..n - 1]) + [lvl[n - 1].id];
    }
  }

  lemma {:induction false} LeafCells(leaves: seq<LeafNode>, n: nat, p: PageId)
    requires n < |leaves|
    ensures ChainsOf(CellsOf(leaves[..n + 1]))[p] == ChainsOf(CellsOf(leaves[..n]))[p] + ChainsOf(leaves[n].cells)[p]
  {
    var l := leaves[n];
    assert leaves[..n + 1] == leaves[..n] + [l];
    CellsAppend(leaves[..n], [l]);
    assert [l][1..] == [];
    assert CellsOf([l]) == l.cells;
    ChainsAppend(CellsOf(leaves[..n]), l.cells);
  }

  lemma {:induction false} LeafRange(pages: Pages, t: Tree, n: nat, p: PageId)
    requires |t.levels| >= 1 && |t.levels[0]| == |t.leaves| && n <= |t.leaves|
    ensures RangeOwn(pages, t, 0, 0, n, p) == Nodes(t.levels[0], n, p) + ChainsOf(CellsOf(t.leaves[..n]))[p]
  {
    if n > 0 {
      LeafRange(pages, t, n - 1, p);
      LeafCells(t.leaves, n - 1, p);
    }
  }

  lemma {:induction false} UpperRange(pages: Pages, t: Tree, k: nat, n: nat, p: PageId)
    requires 1 <= k < |t.levels| && n <= |t.levels[k]|
    ensures RangeOwn(pages, t, k, 0, n, p) == Nodes(t.levels[k], n, p)
            + RangeOwn(pages, t, k - 1, 0, Start(pages, t.levels[k], n), p)
  {
    if n > 0 {
      UpperRange(pages, t, k, n - 1, p);
      RangeAppend(pages, t, k - 1, 0, Start(pages, t.levels[k], n - 1), Start(pages, t.levels[k], n), p);
    }
  }

  lemma {:induction false} IdsStep(levels: seq<Level>, k: nat, p: PageId)
    requires k < |levels|
    ensures IdsOf(levels[..k + 1])[p] == IdsOf(levels[..k])[p] + Nodes(levels[k], |levels[k]|, p)
  {
    assert levels[..k + 1] == levels[..k] + [levels[k]];
    IdsAppend(levels[..k], [levels[k]]);
    assert [levels[k]][1..] == [];
    NodesCount(levels[k], |levels[k]|, p);
    assert levels[k][..|levels[k]|] == levels[k];
  }

  // Every node from the leaves up to level `k`, and every chain.
  lemma {:induction false} WholeLevel(pages: Pages, root: PageId, t: Tree, k: nat, p: PageId)
    requires Structure(pages, t.levels, root) && |t.levels[0]| == |t.leaves| && k < |t.levels|
    ensures RangeOwn(pages, t, k, 0, |t.levels[k]|, p) == IdsOf(t.levels[..k + 1])[p] + ChainsOf(CellsOf(t.leaves))[p]
  {
    IdsStep(t.levels, k, p);
    if k == 0 {
      LeafRange(pages, t, |t.leaves|, p);
      assert t.leaves[..|t.leaves|] == t.leaves;
      assert t.levels[..0] == [];
    } else {
      UpperRange(pages, t, k, |t.levels[k]|, p);
      assert LinkedAt(pages, t.levels, k);
      StartIs(pages, t.levels[k], |t.levels[k]|);
      assert t.levels[k][..|t.levels[k]|] == t.levels[k];
      WholeLevel(pages, root, t, k - 1, p);
    }
  }

  // Below the root lies everything.
  lemma {:induction false} WholeTree(pages: Pages, root: PageId, t: Tree, p: PageId)
    requires Inv(pages, root, t)
    ensures SubOwn(pages, t, |t.levels| - 1, 0, p) == Own(t)[p]
  {
    var top := |t.levels| - 1;
    WholeLevel(pages, root, t, top, p);
    assert t.levels[..top + 1] == t.levels;
    assert RangeOwn(pages, t, top, 0, 1, p) == RangeOwn(pages, t, top, 0, 0, p) + SubOwn(pages, t, top, 0, p);
  }
}
