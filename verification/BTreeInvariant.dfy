// The invariant every successful tree operation keeps, and who owns which page.
module BTreeInvariant {
  import opened Bytes
  import opened PageImage
  import opened BTreeModel
  import opened BTreeShape

  datatype LeafNode = LeafNode(low: u64, id: PageId, cells: seq<Cell>)

  // `levels[0]` lists the leaves; the last level is the root alone.
  datatype Tree = Tree(leaves: seq<LeafNode>, levels: seq<Level>)

  ghost function LeafLevel(leaves: seq<LeafNode>): (lvl: Level)
    ensures |lvl| == |leaves|
  {
    seq(|leaves|, i requires 0 <= i < |leaves| => Entry(leaves[i].low, leaves[i].id))
  }

  ghost function NextLeaf(leaves: seq<LeafNode>, i: nat): PageId
    requires i < |leaves|
  {
    if i + 1 < |leaves| then leaves[i + 1].id else NO_PAGE
  }

  ghost predicate LeafImage(p: Image, l: LeafNode, next: PageId) {
    && p.Slotted? && p.kind.Leaf? && WellFormed(p)
    && p.extra == next
    && p.items == CellItems(l.cells)
  }

  ghost predicate LeafOk(pages: Pages, l: LeafNode, next: PageId) {
    && l.id in pages && LeafImage(pages[l.id], l, next)
    && Ascending(l.cells)
    && (forall i :: 0 <= i < |l.cells| ==> CellOk(pages, l.cells[i]))
    && (forall i :: 0 <= i < |l.cells| ==> l.low <= l.cells[i].key)
  }

  ghost predicate Below(cells: seq<Cell>, bound: u64) {
    forall j :: 0 <= j < |cells| ==> cells[j].key < bound
  }

  ghost predicate BoundedAt(leaves: seq<LeafNode>, i: nat)
    requires i + 1 < |leaves|
  {
    Below(leaves[i].cells, leaves[i + 1].low)
  }

  ghost predicate Bounded(leaves: seq<LeafNode>) {
    forall i :: 0 <= i < |leaves| - 1 ==> BoundedAt(leaves, i)
  }

  ghost predicate LeafAt(pages: Pages, leaves: seq<LeafNode>, i: nat)
    requires i < |leaves|
  {
    LeafOk(pages, leaves[i], NextLeaf(leaves, i))
  }

  ghost predicate LeavesOk(pages: Pages, leaves: seq<LeafNode>) {
    && (forall i :: 0 <= i < |leaves| ==> LeafAt(pages, leaves, i))
    && Bounded(leaves)
  }

  // Every cell in scan order.
  ghost function CellsOf(leaves: seq<LeafNode>): seq<Cell> {
    if leaves == [] then [] else leaves[0].cells + CellsOf(leaves[1..])
  }

  lemma {:induction false} CellsAppend(a: seq<LeafNode>, b: seq<LeafNode>)
    ensures CellsOf(a + b) == CellsOf(a) + CellsOf(b)
  {
    if a == [] {
      assert a + b == b;
    } else {
      assert (a + b)[1..] == a[1..] + b;
      CellsAppend(a[1..], b);
    }
  }

  lemma {:induction false} CellsAround(leaves: seq<LeafNode>, i: nat)
    requires i < |leaves|
    ensures CellsOf(leaves) == CellsOf(leaves[..i]) + leaves[i].cells + CellsOf(leaves[i + 1..])
  {
    assert leaves == leaves[..i] + leaves[i..];
    CellsAppend(leaves[..i], leaves[i..]);
    assert leaves[i..][1..] == leaves[i + 1..];
  }

  // -------------------------------------------------------------- ownership

  ghost function ChainsOf(cells: seq<Cell>): multiset<PageId> {
    if cells == [] then multiset{} else multiset(cells[0].chain) + ChainsOf(cells[1..])
  }

  lemma {:induction false} ChainsAppend(a: seq<Cell>, b: seq<Cell>)
    ensures ChainsOf(a + b) == ChainsOf(a) + ChainsOf(b)
  {
    if a == [] {
      assert a + b == b;
    } else {
      assert (a + b)[1..] == a[1..] + b;
      ChainsAppend(a[1..], b);
    }
  }

  lemma {:induction false} ChainsOne(c: Cell)
    ensures ChainsOf([c]) == multiset(c.chain)
  {
    assert [c][1..] == [];
  }

  lemma {:induction false} ChainsAround(cells: seq<Cell>, j: nat)
    requires j < |cells|
    ensures ChainsOf(cells) == ChainsOf(cells[..j]) + multiset(cells[j].chain) + ChainsOf(cells[j + 1..])
  {
    assert cells == cells[..j] + ([cells[j]] + cells[j + 1..]);
    ChainsAppend(cells[..j], [cells[j]] + cells[j + 1..]);
    ChainsAppend([cells[j]], cells[j + 1..]);
    ChainsOne(cells[j]);
  }

  ghost function IdsOf(levels: seq<Level>): multiset<PageId> {
    if levels == [] then multiset{} else multiset(LevelIds(levels[0])) + IdsOf(levels[1..])
  }

  lemma {:induction false} IdsAppend(a: seq<Level>, b: seq<Level>)
    ensures IdsOf(a + b) == IdsOf(a) + IdsOf(b)
  {
    if a == [] {
      assert a + b == b;
    } else {
      assert (a + b)[1..] == a[1..] + b;
      IdsAppend(a[1..], b);
    }
  }

  lemma {:induction false} IdsAround(levels: seq<Level>, k: nat)
    requires k < |levels|
    ensures IdsOf(levels) == IdsOf(levels[..k]) + multiset(LevelIds(levels[k])) + IdsOf(levels[k + 1..])
  {
    assert levels == levels[..k] + ([levels[k]] + levels[k + 1..]);
    IdsAppend(levels[..k], [levels[k]] + levels[k + 1..]);
    IdsAppend([levels[k]], levels[k + 1..]);
    assert [levels[k]][1..] == [];
  }

  lemma {:induction false} IdsUpdate(levels: seq<Level>, k: nat, lvl: Level)
    requires k < |levels|
    ensures IdsOf(levels[k := lvl]) + multiset(LevelIds(levels[k])) == IdsOf(levels) + multiset(LevelIds(lvl))
  {
    IdsAround(levels, k);
    IdsAround(levels[k := lvl], k);
    assert levels[k := lvl][..k] == levels[..k];
    assert levels[k := lvl][k + 1..] == levels[k + 1..];
  }

  // The pages of a tree, each counted as often as something refers to it.
  ghost function Own(t: Tree): multiset<PageId> {
    IdsOf(t.levels) + ChainsOf(CellsOf(t.leaves))
  }

  ghost predicate Unique(m: multiset<PageId>) {
    forall p :: m[p] <= 1
  }

  ghost function Owned(t: Tree): set<PageId> {
    set p | p in Own(t)
  }

  ghost function LeafPages(l: LeafNode): multiset<PageId> {
    multiset{l.id} + ChainsOf(l.cells)
  }

  // -------------------------------------------------------------- invariant

  ghost predicate Linked(pages: Pages, above: Level, below: Level) {
    NodesOk(pages, above) && Expand(pages, above) == below
  }

  ghost predicate LinkedAt(pages: Pages, levels: seq<Level>, k: nat)
    requires 1 <= k < |levels|
  {
    Linked(pages, levels[k], levels[k - 1])
  }

  ghost predicate Structure(pages: Pages, levels: seq<Level>, root: PageId) {
    && |levels| >= 1
    && levels[|levels| - 1] == [Entry(0, root)]
    && (forall k :: 0 <= k < |levels| ==> Complete(levels[k]))
    && (forall k :: 1 <= k < |levels| ==> LinkedAt(pages, levels, k))
  }

  ghost predicate Inv(pages: Pages, root: PageId, t: Tree) {
    && Structure(pages, t.levels, root)
    && t.levels[0] == LeafLevel(t.leaves)
    && LeavesOk(pages, t.leaves)
    && Unique(Own(t)) && NO_PAGE !in Own(t)
  }

  // The finite map a tree stands for.
  ghost function Contents(t: Tree): map<nat, seq<byte>> {
    MapOf(CellsOf(t.leaves))
  }

  // ---------------------------------------------------------- who owns what

  lemma {:induction false} CountTwice<T>(s: seq<T>, i: nat, j: nat)
    requires i < j < |s| && s[i] == s[j]
    ensures multiset(s)[s[i]] >= 2
  {
    assert s == s[..j] + s[j..];
    assert multiset(s) == multiset(s[..j]) + multiset(s[j..]);
    assert s[..j][i] == s[i] && s[j..][0] == s[j];
  }

  lemma {:induction false} NodeOwned(levels: seq<Level>, k: nat, i: nat)
    requires k < |levels| && i < |levels[k]|
    ensures levels[k][i].id in IdsOf(levels)
  {
    IdsAround(levels, k);
    assert LevelIds(levels[k])[i] == levels[k][i].id;
  }

  lemma {:induction false} NodeCountedTwice(levels: seq<Level>, k: nat, i: nat, k': nat, i': nat)
    requires k < |levels| && i < |levels[k]| && k' < |levels| && i' < |levels[k']|
    requires (k, i) != (k', i') && levels[k][i].id == levels[k'][i'].id
    ensures IdsOf(levels)[levels[k][i].id] >= 2
  {
    var p := levels[k][i].id;
    IdsAround(levels, k);
    assert LevelIds(levels[k])[i] == p;
    if k == k' {
      assert LevelIds(levels[k])[i'] == p;
      CountTwice(LevelIds(levels[k]), if i < i' then i else i', if i < i' then i' else i);
    } else if k' < k {
      NodeOwned(levels[..k], k', i');
    } else {
      OwnedAfter(levels, k, k', i');
    }
  }

  lemma {:induction false} OwnedAfter(levels: seq<Level>, k: nat, k': nat, i': nat)
    requires k < k' < |levels| && i' < |levels[k']|
    ensures levels[k'][i'].id in IdsOf(levels[k + 1..])
  {
    assert levels[k + 1..][k' - k - 1] == levels[k'];
    NodeOwned(levels[k + 1..], k' - k - 1, i');
  }

  // Two places in a tree never share a page.
  lemma {:induction false} NodesDistinct(levels: seq<Level>, k: nat, i: nat, k': nat, i': nat)
    requires Unique(IdsOf(levels))
    requires k < |levels| && i < |levels[k]| && k' < |levels| && i' < |levels[k']|
    requires (k, i) != (k', i')
    ensures levels[k][i].id != levels[k'][i'].id
  {
    if levels[k][i].id == levels[k'][i'].id {
      NodeCountedTwice(levels, k, i, k', i');
    }
  }

  lemma {:induction false} CellChainOwned(cells: seq<Cell>, j: nat, p: PageId)
    requires j < |cells| && p in cells[j].chain
    ensures p in ChainsOf(cells)
  {
    ChainsAround(cells, j);
  }

  lemma {:induction false} LeafChainsAround(leaves: seq<LeafNode>, i: nat)
    requires i < |leaves|
    ensures ChainsOf(CellsOf(leaves)) ==
            ChainsOf(CellsOf(leaves[..i])) + ChainsOf(leaves[i].cells) + ChainsOf(CellsOf(leaves[i + 1..]))
  {
    CellsAround(leaves, i);
    ChainsAppend(CellsOf(leaves[..i]) + leaves[i].cells, CellsOf(leaves[i + 1..]));
    ChainsAppend(CellsOf(leaves[..i]), leaves[i].cells);
  }

  lemma {:induction false} LeafChainOwned(leaves: seq<LeafNode>, i: nat, p: PageId)
    requires i < |leaves| && p in ChainsOf(leaves[i].cells)
    ensures p in ChainsOf(CellsOf(leaves))
  {
    LeafChainsAround(leaves, i);
  }

  lemma {:induction false} ChainCountedTwice(leaves: seq<LeafNode>, i: nat, k: nat, p: PageId)
    requires i < k < |leaves|
    requires p in ChainsOf(leaves[i].cells) && p in ChainsOf(leaves[k].cells)
    ensures ChainsOf(CellsOf(leaves))[p] >= 2
  {
    LeafChainsAround(leaves, k);
    assert leaves[..k][i] == leaves[i];
    LeafChainOwned(leaves[..k], i, p);
  }

  // The overflow pages of two different leaves are different.
  lemma {:induction false} LeafChainsDistinct(leaves: seq<LeafNode>, i: nat, k: nat, p: PageId)
    requires Unique(ChainsOf(CellsOf(leaves)))
    requires i < |leaves| && k < |leaves| && i != k
    requires p in ChainsOf(leaves[i].cells)
    ensures p !in ChainsOf(leaves[k].cells)
  {
    if p in ChainsOf(leaves[k].cells) {
      ChainCountedTwice(leaves, if i < k then i else k, if i < k then k else i, p);
    }
  }

  // ------------------------------------------------------------ framing

  lemma {:induction false} CellFrame(pages: Pages, after: Pages, c: Cell)
    requires CellOk(pages, c)
    requires Agree(pages, after, ChainSet(c.chain))
    ensures CellOk(after, c)
  {
    if |c.payload| > MAX_INLINE {
      ChunksFrame(pages, after, c.chain, Chunks(c.payload));
    }
  }

  lemma {:induction false} LeafFrame(pages: Pages, after: Pages, l: LeafNode, next: PageId)
    requires LeafOk(pages, l, next)
    requires forall p :: p in LeafPages(l) && p in pages ==> p in after && after[p] == pages[p]
    ensures LeafOk(after, l, next)
  {
    assert l.id in LeafPages(l);
    forall i | 0 <= i < |l.cells| ensures CellOk(after, l.cells[i]) {
      forall p | p in ChainSet(l.cells[i].chain) ensures p in LeafPages(l) {
        CellChainOwned(l.cells, i, p);
      }
      CellFrame(pages, after, l.cells[i]);
    }
  }

  lemma {:induction false} UniqueParts(t: Tree)
    requires Unique(Own(t))
    ensures Unique(IdsOf(t.levels)) && Unique(ChainsOf(CellsOf(t.leaves)))
    ensures forall p :: p in IdsOf(t.levels) ==> p !in ChainsOf(CellsOf(t.leaves))
  {
    forall p
      ensures IdsOf(t.levels)[p] <= 1 && ChainsOf(CellsOf(t.leaves))[p] <= 1
      ensures p in IdsOf(t.levels) ==> p !in ChainsOf(CellsOf(t.leaves))
    {
      assert Own(t)[p] == IdsOf(t.levels)[p] + ChainsOf(CellsOf(t.leaves))[p];
    }
  }

  lemma {:induction false} LeafPagesApart(t: Tree, i: nat, k: nat, p: PageId)
    requires |t.levels| >= 1 && t.levels[0] == LeafLevel(t.leaves) && Unique(Own(t))
    requires i < |t.leaves| && k < |t.leaves| && i != k
    requires p in LeafPages(t.leaves[k])
    ensures p in Own(t) && p !in LeafPages(t.leaves[i])
  {
    UniqueParts(t);
    NodeOwned(t.levels, 0, k);
    NodeOwned(t.levels, 0, i);
    NodesDistinct(t.levels, 0, k, 0, i);
    if p in ChainsOf(t.leaves[k].cells) {
      LeafChainOwned(t.leaves, k, p);
      LeafChainsDistinct(t.leaves, k, i, p);
    }
    if p in ChainsOf(t.leaves[i].cells) {
      LeafChainOwned(t.leaves, i, p);
    }
  }

  // A node of an upper level is not a page of any leaf.
  lemma {:induction false} UpperApart(t: Tree, i: nat, k: nat, q: nat)
    requires |t.levels| >= 1 && t.levels[0] == LeafLevel(t.leaves) && Unique(Own(t))
    requires i < |t.leaves| && 1 <= k < |t.levels| && q < |t.levels[k]|
    ensures t.levels[k][q].id in Own(t) && t.levels[k][q].id !in LeafPages(t.leaves[i])
  {
    UniqueParts(t);
    NodeOwned(t.levels, k, q);
    NodesDistinct(t.levels, k, q, 0, i);
    if t.levels[k][q].id in ChainsOf(t.leaves[i].cells) {
      LeafChainOwned(t.leaves, i, t.levels[k][q].id);
    }
  }

  // The other leaves do not notice.
  lemma {:induction false} OtherLeafKept(pages: Pages, after: Pages, t: Tree, i: nat, k: nat)
    requires |t.levels| >= 1 && t.levels[0] == LeafLevel(t.leaves) && Unique(Own(t))
    requires i < |t.leaves| && k < |t.leaves| && i != k
    requires LeafOk(pages, t.leaves[k], NextLeaf(t.leaves, k))
    requires Untouched(pages, after, t, i)
    ensures LeafOk(after, t.leaves[k], NextLeaf(t.leaves, k))
  {
    forall p | p in LeafPages(t.leaves[k]) ensures p in Own(t) && p !in LeafPages(t.leaves[i]) {
      LeafPagesApart(t, i, k, p);
    }
    LeafFrame(pages, after, t.leaves[k], NextLeaf(t.leaves, k));
  }

  lemma {:induction false} LinkedFrame(pages: Pages, after: Pages, above: Level, below: Level)
    requires Linked(pages, above, below)
    requires forall q :: 0 <= q < |above| ==> above[q].id in after && after[above[q].id] == pages[above[q].id]
    ensures Linked(after, above, below)
  {
    ExpandFrame(pages, after, above);
  }

  // Neither do the upper levels.
  lemma {:induction false} UpperKept(pages: Pages, after: Pages, t: Tree, i: nat, k: nat)
    requires |t.levels| >= 1 && t.levels[0] == LeafLevel(t.leaves) && Unique(Own(t))
    requires i < |t.leaves| && 1 <= k < |t.levels|
    requires LinkedAt(pages, t.levels, k)
    requires Untouched(pages, after, t, i)
    ensures LinkedAt(after, t.levels, k)
  {
    forall q | 0 <= q < |t.levels[k]|
      ensures t.levels[k][q].id in after && after[t.levels[k][q].id] == pages[t.levels[k][q].id]
    {
      UpperApart(t, i, k, q);
    }
    LinkedFrame(pages, after, t.levels[k], t.levels[k - 1]);
  }

  ghost predicate Untouched(pages: Pages, after: Pages, t: Tree, i: nat)
    requires i < |t.leaves|
  {
    forall p :: p in Own(t) && p !in LeafPages(t.leaves[i]) && p in pages ==> p in after && after[p] == pages[p]
  }

  lemma {:induction false} SwapLeavesAt(pages: Pages, after: Pages, t: Tree, i: nat, l: LeafNode, k: nat)
    requires |t.levels| >= 1 && t.levels[0] == LeafLevel(t.leaves) && Unique(Own(t))
    requires LeavesOk(pages, t.leaves) && i < |t.leaves| && k < |t.leaves|
    requires l.id == t.leaves[i].id
    requires LeafOk(after, l, NextLeaf(t.leaves, i))
    requires Untouched(pages, after, t, i)
    ensures LeafAt(after, t.leaves[i := l], k)
  {
    assert NextLeaf(t.leaves[i := l], k) == NextLeaf(t.leaves, k);
    if k != i {
      assert LeafAt(pages, t.leaves, k);
      OtherLeafKept(pages, after, t, i, k);
    }
  }

  lemma {:induction false} SwapBounds(leaves: seq<LeafNode>, i: nat, l: LeafNode)
    requires Bounded(leaves) && i < |leaves|
    requires l.low == leaves[i].low
    requires i + 1 < |leaves| ==> Below(l.cells, leaves[i + 1].low)
    ensures Bounded(leaves[i := l])
  {
    var leaves' := leaves[i := l];
    forall k | 0 <= k < |leaves'| - 1 ensures BoundedAt(leaves', k) {
      assert BoundedAt(leaves, k);
    }
  }

  lemma {:induction false} SwapLeaves(pages: Pages, after: Pages, t: Tree, i: nat, l: LeafNode)
    requires |t.levels| >= 1 && t.levels[0] == LeafLevel(t.leaves) && Unique(Own(t))
    requires LeavesOk(pages, t.leaves) && i < |t.leaves|
    requires l.low == t.leaves[i].low && l.id == t.leaves[i].id
    requires LeafOk(after, l, NextLeaf(t.leaves, i))
    requires i + 1 < |t.leaves| ==> Below(l.cells, t.leaves[i + 1].low)
    requires Untouched(pages, after, t, i)
    ensures LeavesOk(after, t.leaves[i := l])
  {
    var leaves' := t.leaves[i := l];
    forall k | 0 <= k < |leaves'| ensures LeafAt(after, leaves', k) {
      SwapLeavesAt(pages, after, t, i, l, k);
    }
    SwapBounds(t.leaves, i, l);
  }

  lemma {:induction false} SwapStructure(pages: Pages, after: Pages, root: PageId, t: Tree, i: nat)
    requires Structure(pages, t.levels, root)
    requires t.levels[0] == LeafLevel(t.leaves) && Unique(Own(t)) && i < |t.leaves|
    requires Untouched(pages, after, t, i)
    ensures Structure(after, t.levels, root)
  {
    forall k | 1 <= k < |t.levels| ensures LinkedAt(after, t.levels, k) {
      assert LinkedAt(pages, t.levels, k);
      UpperKept(pages, after, t, i, k);
    }
  }

  // Replacing one leaf, in place, by another with the same range.
  lemma {:induction false} SwapLeaf(pages: Pages, after: Pages, root: PageId, t: Tree, i: nat, l: LeafNode)
    requires Inv(pages, root, t) && i < |t.leaves|
    requires l.low == t.leaves[i].low && l.id == t.leaves[i].id
    requires LeafOk(after, l, NextLeaf(t.leaves, i))
    requires i + 1 < |t.leaves| ==> Below(l.cells, t.leaves[i + 1].low)
    requires Untouched(pages, after, t, i)
    requires Unique(Own(t.(leaves := t.leaves[i := l]))) && NO_PAGE !in Own(t.(leaves := t.leaves[i := l]))
    ensures Inv(after, root, t.(leaves := t.leaves[i := l]))
  {
    assert LeafLevel(t.leaves[i := l]) == LeafLevel(t.leaves);
    SwapLeaves(pages, after, t, i, l);
    SwapStructure(pages, after, root, t, i);
  }
}
