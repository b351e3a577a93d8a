// Cutting an overfull leaf in two, as a whole-tree step.
module BTreeDivide {
  import opened PageImage
  import opened BTreeModel
  import opened BTreeInvariant
  import opened BTreeGrowth
  import opened BTreeSplit
  import opened BTreeOrder
  import opened BTreeFill
  import opened BTreeUpdate

  // What the two pages of a divided leaf hold.
  ghost predicate TwoLeaves(after: Pages, t: Tree, i: nat, cells: seq<Cell>, s: nat, right: PageId)
    requires i < |t.leaves| && 1 <= s < |cells|
  {
    var l := t.leaves[i];
    && l.id in after && LeafImage(after[l.id], LeafNode(l.low, l.id, cells[..s]), right)
    && right in after && LeafImage(after[right], LeafNode(cells[s].key, right, cells[s..]), NextLeaf(t.leaves, i))
  }

  lemma {:induction false} HalvesOk(after: Pages, t: Tree, i: nat, cells: seq<Cell>, s: nat, right: PageId)
    requires i < |t.leaves| && 1 <= s < |cells| && FitsLeaf(after, t.leaves, i, cells)
    requires TwoLeaves(after, t, i, cells, s, right)
    ensures LeafOk(after, LeafNode(t.leaves[i].low, t.leaves[i].id, cells[..s]), right)
    ensures LeafOk(after, LeafNode(cells[s].key, right, cells[s..]), NextLeaf(t.leaves, i))
  {
    SplitRanges(cells, s, t.leaves[i].low);
  }

  // The pages of the divided tree: the old ones, the new cell's and the new leaf.
  lemma {:induction false} DividedOwn(t: Tree, i: nat, j: nat, c: Cell, s: nat, right: PageId)
    requires Unique(Own(t)) && NO_PAGE !in Own(t) && Joining(t, c.chain)
    requires i < |t.leaves| && j <= |t.leaves[i].cells| && 1 <= s < |InsertAt(t.leaves[i].cells, j, c)|
    requires |t.levels| >= 1 && |t.levels[0]| == |t.leaves|
    requires right != NO_PAGE && right !in Own(t) && right !in c.chain
    ensures var t' := SplitTree(t, i, InsertAt(t.leaves[i].cells, j, c), s, right);
            && Unique(Own(t')) && NO_PAGE !in Own(t')
            && Owned(t') == Owned(t) + ChainSet(c.chain) + {right}
  {
    var cells := InsertAt(t.leaves[i].cells, j, c);
    var t' := SplitTree(t, i, cells, s, right);
    SplitOwn(t, i, cells, s, right);
    ChainsInsert(t.leaves[i].cells, j, c);
    var added := c.chain + [right];
    assert multiset(added) == multiset(c.chain) + multiset{right};
    Rearrange(Own(t'), Own(t), ChainsOf(cells) + multiset{right}, ChainsOf(t.leaves[i].cells), multiset{},
      multiset(added));
    ExchangedOwned(t, t', [], added);
  }

  lemma {:induction false} GrowingOrdered(pages: Pages, root: PageId, t: Tree, k: nat, pos: nat)
    requires Growing(pages, root, t, k, pos)
    ensures Ordered(t.leaves)
  {
    forall i | 0 <= i < |t.leaves| ensures InRange(t.leaves[i]) {
      assert LeafAt(pages, t.leaves, i);
    }
  }

  lemma {:induction false} LeafDivided(pages: Pages, after: Pages, root: PageId, t: Tree, i: nat, j: nat, c: Cell,
                                       s: nat, right: PageId)
    requires Inv(pages, root, t) && i < |t.leaves| && Slots(t.leaves[i].cells, j, c.key)
    requires t.leaves[i].low <= c.key && (i + 1 < |t.leaves| ==> c.key < t.leaves[i + 1].low)
    requires CellOk(after, c) && Joining(t, c.chain)
    requires ChangedAround(pages, after, t, i, [])
    requires right != NO_PAGE && right !in Own(t) && right !in c.chain
    requires var cells := InsertAt(t.leaves[i].cells, j, c);
             1 <= s < |cells| && TwoLeaves(after, t, i, cells, s, right)
    ensures var t' := SplitTree(t, i, InsertAt(t.leaves[i].cells, j, c), s, right);
            && Growing(after, root, t', 1, i + 1)
            && Contents(t') == Contents(t)[c.key := c.payload]
            && Owned(t') == Owned(t) + ChainSet(c.chain) + {right}
  {
    var cells := InsertAt(t.leaves[i].cells, j, c);
    var t' := SplitTree(t, i, cells, s, right);
    LeafKeepsCells(pages, after, root, t, i);
    FitsInserted(after, t.leaves, i, t.leaves[i].cells, j, c);
    HalvesOk(after, t, i, cells, s, right);
    DividedOwn(t, i, j, c, s, right);
    LeafSplit(pages, after, root, t, i, cells, s, right);
    GrowingOrdered(after, root, t', 1, i + 1);
    AllAscending(t'.leaves);
    SplitCells(t, i, cells, s, right);
    ContentsInserted(t, i, j, c, t'.leaves);
  }

  // Every leaf item is small enough for the cut to work.
  lemma {:induction false} CellItemsSmall(cells: seq<Cell>)
    ensures SmallItems(CellItems(cells))
  {
  }

  lemma {:induction false} OverfullCost(items: seq<Item>, j: nat, item: Item)
    requires j <= |items| && TotalCost(items) <= CAPACITY && ItemCost(|item|) <= MAX_ITEM_COST
    ensures TotalCost(InsertAt(items, j, item)) <= CAPACITY + MAX_ITEM_COST
  {
    TotalLenInsert(items, j, item);
  }
}
