// Cutting a leaf in two, and the ownership bookkeeping around every change to a leaf.
module BTreeSplit {
  import opened Bytes
  import opened PageImage
  import opened BTreeModel
  import opened BTreeShape
  import opened BTreeInvariant
  import opened BTreeGrowth

  // ------------------------------------------------------------ ownership

  lemma {:induction false} ChainsInsert(cells: seq<Cell>, j: nat, c: Cell)
    requires j <= |cells|
    ensures ChainsOf(InsertAt(cells, j, c)) == ChainsOf(cells) + multiset(c.chain)
  {
    var cells' := InsertAt(cells, j, c);
    ChainsAround(cells', j);
    assert cells'[..j] == cells[..j] && cells'[j + 1..] == cells[j..];
    assert cells == cells[..j] + cells[j..];
    ChainsAppend(cells[..j], cells[j..]);
  }

  lemma {:induction false} ChainsRemove(cells: seq<Cell>, j: nat)
    requires j < |cells|
    ensures ChainsOf(RemoveAt(cells, j)) + multiset(cells[j].chain) == ChainsOf(cells)
  {
    ChainsInsert(RemoveAt(cells, j), j, cells[j]);
    assert InsertAt(RemoveAt(cells, j), j, cells[j]) == cells;
  }

  lemma {:induction false} OwnSwap(t: Tree, i: nat, l: LeafNode)
    requires i < |t.leaves|
    ensures Own(t.(leaves := t.leaves[i := l])) + ChainsOf(t.leaves[i].cells) == Own(t) + ChainsOf(l.cells)
  {
    LeafChainsAround(t.leaves, i);
    LeafChainsAround(t.leaves[i := l], i);
    assert t.leaves[i := l][..i] == t.leaves[..i];
    assert t.leaves[i := l][i + 1..] == t.leaves[i + 1..];
  }

  lemma {:induction false} IdsInsert(lvl: Level, i: nat, e: Entry)
    requires i <= |lvl|
    ensures multiset(LevelIds(InsertAt(lvl, i, e))) == multiset(LevelIds(lvl)) + multiset{e.id}
  {
    assert LevelIds(InsertAt(lvl, i, e)) == LevelIds(lvl[..i]) + [e.id] + LevelIds(lvl[i..]);
    assert LevelIds(lvl) == LevelIds(lvl[..i]) + LevelIds(lvl[i..]);
  }

  lemma {:induction false} Cancel(a: multiset<PageId>, b: multiset<PageId>, c: multiset<PageId>)
    requires a + c == b + c
    ensures a == b
  {
    forall p ensures a[p] == b[p] {
      assert (a + c)[p] == a[p] + c[p];
      assert (b + c)[p] == b[p] + c[p];
    }
  }

  lemma {:induction false} OwnLevelInsert(t: Tree, k: nat, i: nat, e: Entry)
    requires k < |t.levels| && i <= |t.levels[k]|
    ensures Own(t.(levels := t.levels[k := InsertAt(t.levels[k], i, e)])) == Own(t) + multiset{e.id}
  {
    var levels' := t.levels[k := InsertAt(t.levels[k], i, e)];
    IdsUpdate(t.levels, k, InsertAt(t.levels[k], i, e));
    IdsInsert(t.levels[k], i, e);
    Cancel(IdsOf(levels'), IdsOf(t.levels) + multiset{e.id}, multiset(LevelIds(t.levels[k])));
  }

  lemma {:induction false} OwnNewTop(t: Tree, e: Entry)
    ensures Own(t.(levels := t.levels + [[e]])) == Own(t) + multiset{e.id}
  {
    IdsAppend(t.levels, [[e]]);
    assert [[e]][1..] == [];
    assert LevelIds([e]) == [e.id];
  }

  lemma {:induction false} UniqueAdd(m: multiset<PageId>, p: PageId)
    requires Unique(m) && p !in m
    ensures Unique(m + multiset{p})
  {
  }

  // ---------------------------------------------------------------- frames

  lemma {:induction false} LeavesFrame(pages: Pages, after: Pages, leaves: seq<LeafNode>)
    requires LeavesOk(pages, leaves)
    requires forall i, p :: 0 <= i < |leaves| && p in LeafPages(leaves[i]) && p in pages ==>
             p in after && after[p] == pages[p]
    ensures LeavesOk(after, leaves)
  {
    forall i | 0 <= i < |leaves| ensures LeafAt(after, leaves, i) {
      assert LeafAt(pages, leaves, i);
      LeafFrame(pages, after, leaves[i], NextLeaf(leaves, i));
    }
  }

  lemma {:induction false} LeafPageOwned(t: Tree, i: nat, p: PageId)
    requires |t.levels| >= 1 && t.levels[0] == LeafLevel(t.leaves)
    requires i < |t.leaves| && p in LeafPages(t.leaves[i])
    ensures p in Own(t)
  {
    NodeOwned(t.levels, 0, i);
    if p in ChainsOf(t.leaves[i].cells) {
      LeafChainOwned(t.leaves, i, p);
    }
  }

  // Rewriting nodes above the leaves, or pages outside the tree, leaves the leaves alone.
  lemma {:induction false} LeavesUnderUppers(pages: Pages, after: Pages, t: Tree, k: nat, q: nat)
    requires |t.levels| >= 1 && t.levels[0] == LeafLevel(t.leaves) && Unique(Own(t))
    requires LeavesOk(pages, t.leaves)
    requires 1 <= k < |t.levels| && q < |t.levels[k]|
    requires forall p :: p in Own(t) && p != t.levels[k][q].id && p in pages ==> p in after && after[p] == pages[p]
    ensures LeavesOk(after, t.leaves)
  {
    forall i, p | 0 <= i < |t.leaves| && p in LeafPages(t.leaves[i]) && p in pages
      ensures p in after && after[p] == pages[p]
    {
      LeafPageOwned(t, i, p);
      UpperApart(t, i, k, q);
    }
    LeavesFrame(pages, after, t.leaves);
  }

  // The invariant reads no page the tree does not own.
  lemma {:induction false} InvFrame(pages: Pages, after: Pages, root: PageId, t: Tree)
    requires Inv(pages, root, t)
    requires forall p :: p in Own(t) && p in pages ==> p in after && after[p] == pages[p]
    ensures Inv(after, root, t)
  {
    forall i, p | 0 <= i < |t.leaves| && p in LeafPages(t.leaves[i]) && p in pages
      ensures p in after && after[p] == pages[p]
    {
      LeafPageOwned(t, i, p);
    }
    LeavesFrame(pages, after, t.leaves);
    StructureFrame(pages, after, root, t.levels);
  }

  lemma {:induction false} StructureFrame(pages: Pages, after: Pages, root: PageId, levels: seq<Level>)
    requires Structure(pages, levels, root)
    requires forall p :: p in IdsOf(levels) && p in pages ==> p in after && after[p] == pages[p]
    ensures Structure(after, levels, root)
  {
    forall k | 1 <= k < |levels| ensures LinkedAt(after, levels, k) {
      assert LinkedAt(pages, levels, k);
      forall i | 0 <= i < |levels[k]|
        ensures levels[k][i].id in after && after[levels[k][i].id] == pages[levels[k][i].id]
      {
        NodeOwned(levels, k, i);
      }
      LinkedFrame(pages, after, levels[k], levels[k - 1]);
    }
  }

  // ------------------------------------------------------------ the split

  // Leaf `i` holding `cells` instead, cut before cell `s`, the right half on page `right`.
  ghost function SplitLeaves(leaves: seq<LeafNode>, i: nat, cells: seq<Cell>, s: nat, right: PageId): (r: seq<LeafNode>)
    requires i < |leaves| && 1 <= s < |cells|
    ensures |r| == |leaves| + 1
    ensures r[i] == LeafNode(leaves[i].low, leaves[i].id, cells[..s])
    ensures r[i + 1] == LeafNode(cells[s].key, right, cells[s..])
    ensures forall k :: 0 <= k < i ==> r[k] == leaves[k]
    ensures forall k :: i + 1 < k < |r| ==> r[k] == leaves[k - 1]
  {
    leaves[..i]
    + [LeafNode(leaves[i].low, leaves[i].id, cells[..s]), LeafNode(cells[s].key, right, cells[s..])]
    + leaves[i + 1..]
  }

  ghost function SplitTree(t: Tree, i: nat, cells: seq<Cell>, s: nat, right: PageId): Tree
    requires i < |t.leaves| && 1 <= s < |cells|
    requires |t.levels| >= 1 && |t.levels[0]| == |t.leaves|
  {
    Tree(SplitLeaves(t.leaves, i, cells, s, right),
         t.levels[0 := InsertAt(t.levels[0], i + 1, Entry(cells[s].key, right))])
  }

  lemma {:induction false} SplitCells(t: Tree, i: nat, cells: seq<Cell>, s: nat, right: PageId)
    requires i < |t.leaves| && 1 <= s < |cells|
    requires |t.levels| >= 1 && |t.levels[0]| == |t.leaves|
    ensures CellsOf(SplitTree(t, i, cells, s, right).leaves)
            == CellsOf(t.leaves[..i]) + cells + CellsOf(t.leaves[i + 1..])
    ensures CellsOf(t.leaves[i := t.leaves[i].(cells := cells)])
            == CellsOf(t.leaves[..i]) + cells + CellsOf(t.leaves[i + 1..])
  {
    var l := t.leaves[i];
    var two := [LeafNode(l.low, l.id, cells[..s]), LeafNode(cells[s].key, right, cells[s..])];
    assert two[1..] == [two[1]] && two[1..][1..] == [];
    assert CellsOf(two[1..]) == cells[s..] + [];
    assert CellsOf(two) == cells[..s] + cells[s..] == cells;
    CellsAppend(t.leaves[..i] + two, t.leaves[i + 1..]);
    CellsAppend(t.leaves[..i], two);
    var whole := t.leaves[i := l.(cells := cells)];
    CellsAround(whole, i);
    assert whole[..i] == t.leaves[..i] && whole[i + 1..] == t.leaves[i + 1..];
  }

  lemma {:induction false} SplitOwn(t: Tree, i: nat, cells: seq<Cell>, s: nat, right: PageId)
    requires i < |t.leaves| && 1 <= s < |cells|
    requires |t.levels| >= 1 && |t.levels[0]| == |t.leaves|
    ensures Own(SplitTree(t, i, cells, s, right)) + ChainsOf(t.leaves[i].cells)
            == Own(t) + ChainsOf(cells) + multiset{right}
  {
    SplitCells(t, i, cells, s, right);
    var t1 := t.(leaves := t.leaves[i := t.leaves[i].(cells := cells)]);
    OwnSwap(t, i, t.leaves[i].(cells := cells));
    OwnLevelInsert(t1, 0, i + 1, Entry(cells[s].key, right));
  }

  lemma {:induction false} SplitLevel0(t: Tree, i: nat, cells: seq<Cell>, s: nat, right: PageId)
    requires i < |t.leaves| && 1 <= s < |cells|
    requires |t.levels| >= 1 && t.levels[0] == LeafLevel(t.leaves)
    ensures LeafLevel(SplitTree(t, i, cells, s, right).leaves) == SplitTree(t, i, cells, s, right).levels[0]
  {
    var leaves' := SplitTree(t, i, cells, s, right).leaves;
    var lvl' := SplitTree(t, i, cells, s, right).levels[0];
    forall k | 0 <= k < |leaves'| ensures LeafLevel(leaves')[k] == lvl'[k] {
    }
  }

  // Both halves of an ascending run stay in range around the key the right half starts with.
  lemma {:induction false} SplitRanges(cells: seq<Cell>, s: nat, low: u64)
    requires Ascending(cells) && 1 <= s < |cells|
    requires forall j :: 0 <= j < |cells| ==> low <= cells[j].key
    ensures Ascending(cells[..s]) && Ascending(cells[s..])
    ensures Below(cells[..s], cells[s].key) && low < cells[s].key
    ensures forall j :: 0 <= j < |cells[..s]| ==> low <= cells[..s][j].key
    ensures forall j :: 0 <= j < |cells[s..]| ==> cells[s].key <= cells[s..][j].key
  {
    assert cells[0].key < cells[s].key;
  }

  lemma {:induction false} LeafMoved(pages: Pages, leaves: seq<LeafNode>, k: nat, leaves': seq<LeafNode>, k': nat)
    requires k < |leaves| && k' < |leaves'|
    requires LeafOk(pages, leaves[k], NextLeaf(leaves, k))
    requires leaves'[k'] == leaves[k] && NextLeaf(leaves', k') == NextLeaf(leaves, k)
    ensures LeafAt(pages, leaves', k')
  {
  }

  lemma {:induction false} SplitLeafAt(pages: Pages, after: Pages, t: Tree, i: nat, leaves': seq<LeafNode>, k: nat,
                                       k': nat)
    requires |t.levels| >= 1 && t.levels[0] == LeafLevel(t.leaves) && Unique(Own(t))
    requires i < |t.leaves| && k < |t.leaves| && k != i && LeavesOk(pages, t.leaves)
    requires k' < |leaves'| && leaves'[k'] == t.leaves[k] && NextLeaf(leaves', k') == NextLeaf(t.leaves, k)
    requires Untouched(pages, after, t, i)
    ensures LeafAt(after, leaves', k')
  {
    assert LeafAt(pages, t.leaves, k);
    OtherLeafKept(pages, after, t, i, k);
    LeafMoved(after, t.leaves, k, leaves', k');
  }

  lemma {:induction false} SplitLeavesOk(pages: Pages, after: Pages, t: Tree, i: nat, cells: seq<Cell>, s: nat,
                                         right: PageId)
    requires |t.levels| >= 1 && t.levels[0] == LeafLevel(t.leaves) && Unique(Own(t))
    requires LeavesOk(pages, t.leaves) && i < |t.leaves| && 1 <= s < |cells|
    requires LeafOk(after, LeafNode(t.leaves[i].low, t.leaves[i].id, cells[..s]), right)
    requires LeafOk(after, LeafNode(cells[s].key, right, cells[s..]), NextLeaf(t.leaves, i))
    requires Untouched(pages, after, t, i)
    requires Bounded(SplitLeaves(t.leaves, i, cells, s, right))
    ensures LeavesOk(after, SplitLeaves(t.leaves, i, cells, s, right))
  {
    var leaves' := SplitLeaves(t.leaves, i, cells, s, right);
    forall k | 0 <= k < |leaves'| ensures LeafAt(after, leaves', k) {
      if k < i {
        SplitLeafAt(pages, after, t, i, leaves', k, k);
      } else if k > i + 1 {
        SplitLeafAt(pages, after, t, i, leaves', k - 1, k);
      } else {
        SplitHalfAt(after, t.leaves, i, cells, s, right, k);
      }
    }
  }

  // The two halves stand next to each other.
  lemma {:induction false} SplitHalfAt(after: Pages, leaves: seq<LeafNode>, i: nat, cells: seq<Cell>, s: nat,
                                       right: PageId, k: nat)
    requires i < |leaves| && 1 <= s < |cells| && i <= k <= i + 1
    requires LeafOk(after, LeafNode(leaves[i].low, leaves[i].id, cells[..s]), right)
    requires LeafOk(after, LeafNode(cells[s].key, right, cells[s..]), NextLeaf(leaves, i))
    ensures LeafAt(after, SplitLeaves(leaves, i, cells, s, right), k)
  {
  }

  lemma {:induction false} SplitBounded(leaves: seq<LeafNode>, i: nat, cells: seq<Cell>, s: nat, right: PageId)
    requires Bounded(leaves) && i < |leaves| && 1 <= s < |cells|
    requires Ascending(cells)
    requires i + 1 < |leaves| ==> Below(cells, leaves[i + 1].low)
    ensures Bounded(SplitLeaves(leaves, i, cells, s, right))
  {
    var leaves' := SplitLeaves(leaves, i, cells, s, right);
    forall k | 0 <= k < |leaves'| - 1 ensures BoundedAt(leaves', k) {
      if k < i {
        assert BoundedAt(leaves, k);
      } else if k > i + 1 {
        assert BoundedAt(leaves, k - 1);
      }
    }
  }

  // After a leaf split the leaves are in order and only the first upper level lags behind.
  lemma {:induction false} LeafSplit(pages: Pages, after: Pages, root: PageId, t: Tree, i: nat, cells: seq<Cell>,
                                     s: nat, right: PageId)
    requires Inv(pages, root, t) && i < |t.leaves| && 1 <= s < |cells|
    requires Ascending(cells)
    requires forall j :: 0 <= j < |cells| ==> t.leaves[i].low <= cells[j].key
    requires i + 1 < |t.leaves| ==> Below(cells, t.leaves[i + 1].low)
    requires LeafOk(after, LeafNode(t.leaves[i].low, t.leaves[i].id, cells[..s]), right)
    requires LeafOk(after, LeafNode(cells[s].key, right, cells[s..]), NextLeaf(t.leaves, i))
    requires Untouched(pages, after, t, i)
    requires Unique(Own(SplitTree(t, i, cells, s, right))) && NO_PAGE !in Own(SplitTree(t, i, cells, s, right))
    ensures Growing(after, root, SplitTree(t, i, cells, s, right), 1, i + 1)
  {
    SplitLevel0(t, i, cells, s, right);
    SplitRanges(cells, s, t.leaves[i].low);
    SplitBounded(t.leaves, i, cells, s, right);
    SplitLeavesOk(pages, after, t, i, cells, s, right);
    SplitPending(pages, after, root, t, i, cells, s, right);
  }

  lemma {:induction false} SplitPending(pages: Pages, after: Pages, root: PageId, t: Tree, i: nat, cells: seq<Cell>,
                                        s: nat, right: PageId)
    requires Structure(pages, t.levels, root) && t.levels[0] == LeafLevel(t.leaves) && Unique(Own(t))
    requires i < |t.leaves| && 1 <= s < |cells|
    requires t.leaves[i].low < cells[s].key
    requires i + 1 < |t.leaves| ==> cells[s].key < t.leaves[i + 1].low
    requires Untouched(pages, after, t, i)
    ensures Pending(after, SplitTree(t, i, cells, s, right).levels, root, 1, i + 1)
  {
    var levels' := SplitTree(t, i, cells, s, right).levels;
    CompleteInsert(t.levels[0], i, Entry(cells[s].key, right));
    assert RemoveAt(levels'[0], i + 1) == t.levels[0];
    forall k | 1 <= k < |t.levels| ensures LinkedAt(after, t.levels, k) {
      assert LinkedAt(pages, t.levels, k);
      UpperKept(pages, after, t, i, k);
    }
    forall k | 1 <= k < |levels'| && k != 1 ensures LinkedAt(after, levels', k) {
      assert LinkedAt(after, t.levels, k);
    }
    assert |levels'| > 1 ==> LinkedAt(after, t.levels, 1);
  }
}
