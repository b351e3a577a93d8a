// The three ways a pending split is absorbed, as whole-tree steps.
module BTreeStep {
  import opened PageImage
  import opened BTreeModel
  import opened BTreeShape
  import opened BTreeInvariant
  import opened BTreeGrowth
  import opened BTreeSplit

  ghost predicate OnlyTreeNode(pages: Pages, after: Pages, t: Tree, k: nat, q: nat)
    requires k < |t.levels| && q < |t.levels[k]|
  {
    forall p :: p in Own(t) && p != t.levels[k][q].id && p in pages ==> p in after && after[p] == pages[p]
  }

  lemma {:induction false} NodeChangeKeepsLeaves(pages: Pages, after: Pages, root: PageId, t: Tree, k: nat, pos: nat,
                                                 q: nat)
    requires Growing(pages, root, t, k, pos) && k < |t.levels| && q < |t.levels[k]|
    requires OnlyTreeNode(pages, after, t, k, q)
    ensures LeavesOk(after, t.leaves) && OnlyNode(pages, after, t.levels, k, q)
    ensures Unique(IdsOf(t.levels))
  {
    UniqueParts(t);
    LeavesUnderUppers(pages, after, t, k, q);
  }

  // The parent took the entry: the tree is whole again.
  lemma {:induction false} StepClosed(pages: Pages, after: Pages, root: PageId, t: Tree, k: nat, pos: nat, q: nat,
                                      r: nat)
    requires Growing(pages, root, t, k, pos) && ParentOf(pages, t.levels, k, pos, q, r)
    requires OnlyTreeNode(pages, after, t, k, q)
    requires var id, e := t.levels[k][q].id, t.levels[k - 1][pos];
             && id in after && NodeImage(after[id])
             && after[id].extra == pages[id].extra
             && after[id].items == InsertAt(pages[id].items, r, InternalItem(e.low, e.id))
    ensures Inv(after, root, t)
  {
    NodeChangeKeepsLeaves(pages, after, root, t, k, pos, q);
    GapClosed(pages, after, t.levels, root, k, pos, q, r);
  }

  ghost function RaiseTree(t: Tree, k: nat, q: nat, up: Entry): Tree
    requires k < |t.levels| && q < |t.levels[k]|
  {
    t.(levels := t.levels[k := InsertAt(t.levels[k], q + 1, up)])
  }

  // The parent split: the same situation, one level up.
  lemma {:induction false} StepSplit(pages: Pages, after: Pages, root: PageId, t: Tree, k: nat, pos: nat, q: nat,
                                     r: nat, items: seq<Item>, mid: nat, fresh_: PageId)
    requires Growing(pages, root, t, k, pos) && ParentOf(pages, t.levels, k, pos, q, r)
    requires OnlyTreeNode(pages, after, t, k, q)
    requires items == InsertAt(pages[t.levels[k][q].id].items, r,
             InternalItem(t.levels[k - 1][pos].low, t.levels[k - 1][pos].id))
    requires CutNode(pages, after, t.levels[k][q].id, fresh_, items, mid)
    requires fresh_ != NO_PAGE && fresh_ !in Own(t)
    ensures var t' := RaiseTree(t, k, q, Entry(ItemKey(items[mid]), fresh_));
            Growing(after, root, t', k + 1, q + 1) && Own(t') == Own(t) + multiset{fresh_}
  {
    var up := Entry(ItemKey(items[mid]), fresh_);
    NodeChangeKeepsLeaves(pages, after, root, t, k, pos, q);
    SplitLevel(pages, after, t.levels, root, k, pos, q, r, items, mid, fresh_);
    GapMovedUp(pages, after, t.levels, root, k, pos, q, up);
    OwnLevelInsert(t, k, q + 1, up);
    UniqueAdd(Own(t), fresh_);
  }

  ghost function CrownTree(t: Tree, newRoot: PageId): Tree {
    t.(levels := t.levels + [[Entry(0, newRoot)]])
  }

  // The root split: a new root is put over both halves.
  lemma {:induction false} StepRoot(pages: Pages, after: Pages, root: PageId, t: Tree, pos: nat, newRoot: PageId)
    requires Growing(pages, root, t, |t.levels|, pos)
    requires newRoot != NO_PAGE && newRoot !in Own(t)
    requires var e := t.levels[|t.levels| - 1][pos];
             newRoot in after && NodeImage(after[newRoot])
             && after[newRoot].extra == root && after[newRoot].items == [InternalItem(e.low, e.id)]
    requires forall p :: p in Own(t) && p in pages ==> p in after && after[p] == pages[p]
    ensures Inv(after, newRoot, CrownTree(t, newRoot))
    ensures Own(CrownTree(t, newRoot)) == Own(t) + multiset{newRoot}
  {
    RootGrown(pages, after, t.levels, root, pos, newRoot);
    OwnNewTop(t, Entry(0, newRoot));
    UniqueAdd(Own(t), newRoot);
    forall i, p | 0 <= i < |t.leaves| && p in LeafPages(t.leaves[i]) && p in pages
      ensures p in after && after[p] == pages[p]
    {
      LeafPageOwned(t, i, p);
    }
    LeavesFrame(pages, after, t.leaves);
  }

  lemma {:induction false} OwnedPlus(t: Tree, t': Tree, p: PageId)
    requires Own(t') == Own(t) + multiset{p}
    ensures Owned(t') == Owned(t) + {p}
  {
  }
}
