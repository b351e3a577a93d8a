// Changing the cells of one leaf: what survives, who owns what afterwards, and what the map
// becomes.
module BTreeUpdate {
  import opened Bytes
  import opened PageImage
  import opened Paging
  import opened BTreeModel
  import opened BTreeInvariant
  import opened BTreeGrowth
  import opened BTreeSplit
  import opened BTreeOrder

  ghost function WithCells(t: Tree, i: nat, cells: seq<Cell>): Tree
    requires i < |t.leaves|
  {
    t.(leaves := t.leaves[i := t.leaves[i].(cells := cells)])
  }

  // ------------------------------------------------------------- ownership

  lemma {:induction false} SeqUnique(s: seq<PageId>)
    requires NoDuplicates(s)
    ensures Unique(multiset(s))
  {
    if s != [] {
      var front, last := s[..|s| - 1], s[|s| - 1];
      SeqUnique(front);
      assert s == front + [last];
      assert last !in front;
    }
  }

  lemma {:induction false} UniqueSum(a: multiset<PageId>, b: multiset<PageId>)
    requires Unique(a) && Unique(b) && forall p :: p in b ==> p !in a
    ensures Unique(a + b)
  {
    forall p ensures (a + b)[p] <= 1 {
      assert (a + b)[p] == a[p] + b[p];
    }
  }

  lemma {:induction false} UniquePart(whole: multiset<PageId>, part: multiset<PageId>, rest: multiset<PageId>)
    requires Unique(whole) && part + rest == whole
    ensures Unique(part)
    ensures forall p :: p in part <==> p in whole && p !in rest
  {
    forall p ensures part[p] <= 1 && (p in part <==> p in whole && p !in rest) {
      assert whole[p] == part[p] + rest[p];
    }
  }

  // Pages `gone` leave the tree and pages `added` join it.
  ghost predicate Exchanged(t: Tree, t': Tree, gone: seq<PageId>, added: seq<PageId>) {
    Own(t') + multiset(gone) == Own(t) + multiset(added)
  }

  lemma {:induction false} ExchangedOwned(t: Tree, t': Tree, gone: seq<PageId>, added: seq<PageId>)
    requires Exchanged(t, t', gone, added)
    requires Unique(Own(t)) && NoDuplicates(added) && (forall p :: p in added ==> p !in Own(t))
    ensures Unique(Own(t'))
    ensures forall p :: p in Own(t') <==> (p in Own(t) || p in added) && p !in gone
    ensures Owned(t') == Owned(t) + ChainSet(added) - ChainSet(gone)
  {
    SeqUnique(added);
    UniqueSum(Own(t), multiset(added));
    UniquePart(Own(t) + multiset(added), Own(t'), multiset(gone));
    forall p ensures p in Own(t') <==> (p in Own(t) || p in added) && p !in gone {
      assert p in multiset(added) <==> p in added;
      assert p in multiset(gone) <==> p in gone;
    }
  }

  // --------------------------------------------------------- one leaf anew

  // What the new cells of leaf `i` must satisfy.
  ghost predicate FitsLeaf(pages: Pages, leaves: seq<LeafNode>, i: nat, cells: seq<Cell>)
    requires i < |leaves|
  {
    && Ascending(cells)
    && (forall j :: 0 <= j < |cells| ==> CellOk(pages, cells[j]))
    && (forall j :: 0 <= j < |cells| ==> leaves[i].low <= cells[j].key)
    && (i + 1 < |leaves| ==> Below(cells, leaves[i + 1].low))
  }

  lemma {:induction false} Rearrange(m': multiset<PageId>, m: multiset<PageId>, x': multiset<PageId>,
                                     x: multiset<PageId>, gone: multiset<PageId>, added: multiset<PageId>)
    requires m' + x == m + x' && x' + gone == x + added
    ensures m' + gone == m + added
  {
    forall p ensures (m' + gone)[p] == (m + added)[p] {
      assert (m' + x)[p] == m'[p] + x[p];
      assert (m + x')[p] == m[p] + x'[p];
      assert (x' + gone)[p] == x'[p] + gone[p];
      assert (x + added)[p] == x[p] + added[p];
    }
  }

  lemma {:induction false} ExchangedCells(t: Tree, i: nat, cells: seq<Cell>, gone: seq<PageId>, added: seq<PageId>)
    requires i < |t.leaves|
    requires ChainsOf(cells) + multiset(gone) == ChainsOf(t.leaves[i].cells) + multiset(added)
    ensures Exchanged(t, WithCells(t, i, cells), gone, added)
  {
    var t' := WithCells(t, i, cells);
    OwnSwap(t, i, t.leaves[i].(cells := cells));
    Rearrange(Own(t'), Own(t), ChainsOf(cells), ChainsOf(t.leaves[i].cells), multiset(gone), multiset(added));
  }

  lemma {:induction false} LeafRewritten(pages: Pages, after: Pages, root: PageId, t: Tree, i: nat, cells: seq<Cell>,
                                         gone: seq<PageId>, added: seq<PageId>)
    requires Inv(pages, root, t) && i < |t.leaves|
    requires FitsLeaf(after, t.leaves, i, cells)
    requires t.leaves[i].id in after
    requires LeafImage(after[t.leaves[i].id], t.leaves[i].(cells := cells), NextLeaf(t.leaves, i))
    requires ChainsOf(cells) + multiset(gone) == ChainsOf(t.leaves[i].cells) + multiset(added)
    requires NoDuplicates(added) && NO_PAGE !in added && (forall p :: p in added ==> p !in Own(t))
    requires Untouched(pages, after, t, i)
    ensures Inv(after, root, WithCells(t, i, cells))
    ensures Exchanged(t, WithCells(t, i, cells), gone, added)
    ensures Owned(WithCells(t, i, cells)) == Owned(t) + ChainSet(added) - ChainSet(gone)
  {
    ExchangedCells(t, i, cells, gone, added);
    ExchangedOwned(t, WithCells(t, i, cells), gone, added);
    SwapLeaf(pages, after, root, t, i, t.leaves[i].(cells := cells));
  }

  // ------------------------------------------------------- surviving cells

  lemma {:induction false} CellsCountedTwice(cells: seq<Cell>, j: nat, m: nat, p: PageId)
    requires j < m < |cells| && p in cells[j].chain && p in cells[m].chain
    ensures ChainsOf(cells)[p] >= 2
  {
    ChainsAround(cells, m);
    assert cells[..m][j] == cells[j];
    CellChainOwned(cells[..m], j, p);
    assert p in multiset(cells[m].chain);
  }

  // Overflow pages of one cell are not those of another cell of the same leaf.
  lemma {:induction false} CellsApart(cells: seq<Cell>, j: nat, m: nat, p: PageId)
    requires Unique(ChainsOf(cells)) && j < |cells| && m < |cells| && j != m
    requires p in cells[m].chain
    ensures p !in cells[j].chain
  {
    if p in cells[j].chain {
      CellsCountedTwice(cells, if j < m then j else m, if j < m then m else j, p);
    }
  }

  lemma {:induction false} LeafChainsUnique(t: Tree, i: nat)
    requires Unique(Own(t)) && i < |t.leaves|
    ensures Unique(ChainsOf(t.leaves[i].cells))
    ensures forall p :: p in ChainsOf(t.leaves[i].cells) ==> p in ChainsOf(CellsOf(t.leaves))
  {
    UniqueParts(t);
    LeafChainsAround(t.leaves, i);
    forall p ensures ChainsOf(t.leaves[i].cells)[p] <= 1 {
      assert ChainsOf(CellsOf(t.leaves))[p] <= 1;
    }
  }

  // `after` differs from `pages`, within the tree, only on leaf page `i` and on the chain of
  // its cell `j`.
  ghost predicate ChangedAround(pages: Pages, after: Pages, t: Tree, i: nat, chain: seq<PageId>)
    requires i < |t.leaves|
  {
    forall p :: p in Own(t) && p != t.leaves[i].id && p !in chain && p in pages ==> p in after && after[p] == pages[p]
  }

  lemma {:induction false} CellSurvives(pages: Pages, after: Pages, root: PageId, t: Tree, i: nat, m: nat,
                                        chain: seq<PageId>)
    requires Inv(pages, root, t) && i < |t.leaves| && m < |t.leaves[i].cells|
    requires ChangedAround(pages, after, t, i, chain)
    requires forall p :: p in t.leaves[i].cells[m].chain ==> p !in chain
    ensures CellOk(after, t.leaves[i].cells[m])
  {
    var l := t.leaves[i];
    assert LeafAt(pages, t.leaves, i);
    UniqueParts(t);
    NodeOwned(t.levels, 0, i);
    assert t.levels[0][i].id == l.id;
    forall p | p in ChainSet(l.cells[m].chain) && p in pages ensures p in after && after[p] == pages[p] {
      CellChainOwned(l.cells, m, p);
      LeafChainOwned(t.leaves, i, p);
    }
    CellFrame(pages, after, l.cells[m]);
  }

  lemma {:induction false} OthersUntouched(pages: Pages, after: Pages, t: Tree, i: nat, chain: seq<PageId>)
    requires i < |t.leaves| && ChangedAround(pages, after, t, i, chain)
    requires forall p :: p in chain ==> p in ChainsOf(t.leaves[i].cells)
    ensures Untouched(pages, after, t, i)
  {
  }

  // ----------------------------------------------------------- insert / replace / remove

  lemma {:induction false} CellItemsInsert(cells: seq<Cell>, j: nat, c: Cell)
    requires j <= |cells|
    ensures CellItems(InsertAt(cells, j, c)) == InsertAt(CellItems(cells), j, CellItem(c))
  {
  }

  lemma {:induction false} CellItemsRemove(cells: seq<Cell>, j: nat)
    requires j < |cells|
    ensures CellItems(RemoveAt(cells, j)) == RemoveAt(CellItems(cells), j)
  {
  }

  lemma {:induction false} CellItemsReplace(cells: seq<Cell>, j: nat, c: Cell)
    requires j < |cells|
    ensures CellItems(cells[j := c]) == CellItems(cells)[j := CellItem(c)]
  {
  }

  // The whole map changes as the one leaf does.
  lemma {:induction false} ContentsAround(t: Tree, i: nat, cells: seq<Cell>)
    requires i < |t.leaves|
    ensures CellsOf(t.leaves) == CellsOf(t.leaves[..i]) + t.leaves[i].cells + CellsOf(t.leaves[i + 1..])
    ensures CellsOf(WithCells(t, i, cells).leaves) == CellsOf(t.leaves[..i]) + cells + CellsOf(t.leaves[i + 1..])
  {
    CellsAround(t.leaves, i);
    var leaves' := WithCells(t, i, cells).leaves;
    CellsAround(leaves', i);
    assert leaves'[..i] == t.leaves[..i] && leaves'[i + 1..] == t.leaves[i + 1..];
  }

  lemma {:induction false} RemoveMiddle<T>(a: seq<T>, c: seq<T>, b: seq<T>, j: nat)
    requires j < |c|
    ensures RemoveAt(a + c + b, |a| + j) == a + RemoveAt(c, j) + b && (a + c + b)[|a| + j] == c[j]
  {
  }

  lemma {:induction false} ReplaceMiddle<T>(a: seq<T>, c: seq<T>, b: seq<T>, j: nat, x: T)
    requires j < |c|
    ensures (a + c + b)[|a| + j := x] == a + c[j := x] + b && (a + c + b)[|a| + j] == c[j]
  {
  }

  lemma {:induction false} RunRemoved(a: seq<Cell>, cells: seq<Cell>, b: seq<Cell>, j: nat)
    requires Ascending(a + cells + b) && j < |cells|
    ensures MapOf(a + RemoveAt(cells, j) + b) == MapOf(a + cells + b) - {cells[j].key}
  {
    RemoveMiddle(a, cells, b, j);
    MapOfWithout(a + cells + b, |a| + j);
  }

  lemma {:induction false} RunReplaced(a: seq<Cell>, cells: seq<Cell>, b: seq<Cell>, j: nat, c: Cell)
    requires Ascending(a + cells + b) && j < |cells| && c.key == cells[j].key
    ensures MapOf(a + cells[j := c] + b) == MapOf(a + cells + b)[c.key := c.payload]
  {
    ReplaceMiddle(a, cells, b, j, c);
    MapOfReplace(a + cells + b, |a| + j, c);
  }

  lemma {:induction false} RunInserted(a: seq<Cell>, cells: seq<Cell>, b: seq<Cell>, j: nat, c: Cell)
    requires j <= |cells| && Ascending(a + InsertAt(cells, j, c) + b)
    ensures MapOf(a + InsertAt(cells, j, c) + b) == MapOf(a + cells + b)[c.key := c.payload]
  {
    InsertMiddle(a, cells, b, j, c);
    MapOfInsert(a + cells + b, |a| + j, c);
  }

  lemma {:induction false} ContentsRemoved(t: Tree, i: nat, j: nat)
    requires Ordered(t.leaves) && i < |t.leaves| && j < |t.leaves[i].cells|
    ensures Contents(WithCells(t, i, RemoveAt(t.leaves[i].cells, j))) == Contents(t) - {t.leaves[i].cells[j].key}
  {
    ContentsAround(t, i, RemoveAt(t.leaves[i].cells, j));
    AllAscending(t.leaves);
    RunRemoved(CellsOf(t.leaves[..i]), t.leaves[i].cells, CellsOf(t.leaves[i + 1..]), j);
  }

  lemma {:induction false} ContentsReplaced(t: Tree, i: nat, j: nat, c: Cell)
    requires Ordered(t.leaves) && i < |t.leaves| && j < |t.leaves[i].cells|
    requires c.key == t.leaves[i].cells[j].key
    ensures Contents(WithCells(t, i, t.leaves[i].cells[j := c])) == Contents(t)[c.key := c.payload]
  {
    ContentsAround(t, i, t.leaves[i].cells[j := c]);
    AllAscending(t.leaves);
    RunReplaced(CellsOf(t.leaves[..i]), t.leaves[i].cells, CellsOf(t.leaves[i + 1..]), j, c);
  }

  // However the leaves are cut afterwards, one more cell is one more key.
  lemma {:induction false} ContentsInserted(t: Tree, i: nat, j: nat, c: Cell, leaves': seq<LeafNode>)
    requires i < |t.leaves| && j <= |t.leaves[i].cells|
    requires CellsOf(leaves') == CellsOf(t.leaves[..i]) + InsertAt(t.leaves[i].cells, j, c) + CellsOf(t.leaves[i + 1..])
    requires Ascending(CellsOf(leaves'))
    ensures MapOf(CellsOf(leaves')) == Contents(t)[c.key := c.payload]
  {
    CellsAround(t.leaves, i);
    RunInserted(CellsOf(t.leaves[..i]), t.leaves[i].cells, CellsOf(t.leaves[i + 1..]), j, c);
  }

  // --------------------------------------------------- the three leaf edits

  lemma {:induction false} OldLeafFits(pages: Pages, root: PageId, t: Tree, i: nat)
    requires Inv(pages, root, t) && i < |t.leaves|
    ensures FitsLeaf(pages, t.leaves, i, t.leaves[i].cells)
    ensures LeafOk(pages, t.leaves[i], NextLeaf(t.leaves, i))
  {
    assert LeafAt(pages, t.leaves, i);
    assert i + 1 < |t.leaves| ==> BoundedAt(t.leaves, i);
  }

  // The other cells of the leaf outlive the release of one chain.
  lemma {:induction false} OthersSurvive(pages: Pages, after: Pages, root: PageId, t: Tree, i: nat, j: nat)
    requires Inv(pages, root, t) && i < |t.leaves| && j < |t.leaves[i].cells|
    requires ChangedAround(pages, after, t, i, t.leaves[i].cells[j].chain)
    ensures forall m :: 0 <= m < |t.leaves[i].cells| && m != j ==> CellOk(after, t.leaves[i].cells[m])
    ensures Untouched(pages, after, t, i)
  {
    var cells := t.leaves[i].cells;
    LeafChainsUnique(t, i);
    forall p | p in cells[j].chain ensures p in ChainsOf(cells) {
      CellChainOwned(cells, j, p);
    }
    OthersUntouched(pages, after, t, i, cells[j].chain);
    forall m | 0 <= m < |cells| && m != j ensures CellOk(after, cells[m]) {
      forall p | p in cells[m].chain ensures p !in cells[j].chain {
        CellsApart(cells, j, m, p);
      }
      CellSurvives(pages, after, root, t, i, m, cells[j].chain);
    }
  }

  lemma {:induction false} FitsWithout(pages: Pages, leaves: seq<LeafNode>, i: nat, cells: seq<Cell>, j: nat)
    requires i < |leaves| && j < |cells| && Ascending(cells)
    requires forall m :: 0 <= m < |cells| ==> leaves[i].low <= cells[m].key
    requires i + 1 < |leaves| ==> Below(cells, leaves[i + 1].low)
    requires forall m :: 0 <= m < |cells| && m != j ==> CellOk(pages, cells[m])
    ensures FitsLeaf(pages, leaves, i, RemoveAt(cells, j))
  {
    var rest := RemoveAt(cells, j);
    AscendingWithout(cells, j);
    assert forall m :: 0 <= m < |rest| ==> rest[m] == cells[if m < j then m else m + 1];
  }

  lemma {:induction false} FitsReplaced(pages: Pages, leaves: seq<LeafNode>, i: nat, cells: seq<Cell>, j: nat, c: Cell)
    requires i < |leaves| && j < |cells| && Ascending(cells) && c.key == cells[j].key
    requires forall m :: 0 <= m < |cells| ==> leaves[i].low <= cells[m].key
    requires i + 1 < |leaves| ==> Below(cells, leaves[i + 1].low)
    requires forall m :: 0 <= m < |cells| && m != j ==> CellOk(pages, cells[m])
    requires CellOk(pages, c)
    ensures FitsLeaf(pages, leaves, i, cells[j := c])
  {
    AscendingSwap(cells, j, c);
  }

  // `c` belongs at slot `j` of an ascending run.
  ghost predicate Slots(cells: seq<Cell>, j: nat, key: u64) {
    && j <= |cells|
    && (forall m :: 0 <= m < j ==> cells[m].key < key)
    && (forall m :: j <= m < |cells| ==> key < cells[m].key)
  }

  lemma {:induction false} FitsInserted(pages: Pages, leaves: seq<LeafNode>, i: nat, cells: seq<Cell>, j: nat, c: Cell)
    requires i < |leaves| && FitsLeaf(pages, leaves, i, cells) && Slots(cells, j, c.key)
    requires leaves[i].low <= c.key && (i + 1 < |leaves| ==> c.key < leaves[i + 1].low)
    requires CellOk(pages, c)
    ensures FitsLeaf(pages, leaves, i, InsertAt(cells, j, c))
  {
    var cells' := InsertAt(cells, j, c);
    assert forall m :: 0 <= m < |cells'| ==>
           cells'[m] == if m < j then cells[m] else if m == j then c else cells[m - 1];
  }

  // Overflow pages of a cell about to join the tree.
  ghost predicate Joining(t: Tree, chain: seq<PageId>) {
    NoDuplicates(chain) && NO_PAGE !in chain && forall p :: p in chain ==> p !in Own(t)
  }

  lemma {:induction false} CellRemoved(pages: Pages, after: Pages, root: PageId, t: Tree, i: nat, j: nat)
    requires Inv(pages, root, t) && i < |t.leaves| && j < |t.leaves[i].cells|
    requires ChangedAround(pages, after, t, i, t.leaves[i].cells[j].chain)
    requires var l := t.leaves[i];
             && l.id in pages && pages[l.id].Slotted? && |pages[l.id].items| == |l.cells|
             && l.id in after && after[l.id] == Remove(pages[l.id], j)
    ensures Inv(after, root, WithCells(t, i, RemoveAt(t.leaves[i].cells, j)))
    ensures Owned(WithCells(t, i, RemoveAt(t.leaves[i].cells, j))) == Owned(t) - ChainSet(t.leaves[i].cells[j].chain)
    ensures Contents(WithCells(t, i, RemoveAt(t.leaves[i].cells, j))) == Contents(t) - {t.leaves[i].cells[j].key}
  {
    var l := t.leaves[i];
    OldLeafFits(pages, root, t, i);
    OthersSurvive(pages, after, root, t, i, j);
    FitsWithout(after, t.leaves, i, l.cells, j);
    RemoveKeepsLayout(pages[l.id], j);
    CellItemsRemove(l.cells, j);
    ChainsRemove(l.cells, j);
    LeafRewritten(pages, after, root, t, i, RemoveAt(l.cells, j), l.cells[j].chain, []);
    TreeOrdered(pages, root, t);
    ContentsRemoved(t, i, j);
  }

  lemma {:induction false} ChainsReplace(cells: seq<Cell>, j: nat, c: Cell)
    requires j < |cells|
    ensures ChainsOf(cells[j := c]) + multiset(cells[j].chain) == ChainsOf(cells) + multiset(c.chain)
  {
    ChainsRemove(cells, j);
    ChainsRemove(cells[j := c], j);
    ReplaceThenRemove(cells, j, c);
  }

  lemma {:induction false} CellReplaced(pages: Pages, after: Pages, root: PageId, t: Tree, i: nat, j: nat, c: Cell)
    requires Inv(pages, root, t) && i < |t.leaves| && j < |t.leaves[i].cells|
    requires c.key == t.leaves[i].cells[j].key && CellOk(after, c) && Joining(t, c.chain)
    requires ChangedAround(pages, after, t, i, t.leaves[i].cells[j].chain)
    requires var l := t.leaves[i];
             l.id in after && LeafImage(after[l.id], l.(cells := l.cells[j := c]), NextLeaf(t.leaves, i))
    ensures Inv(after, root, WithCells(t, i, t.leaves[i].cells[j := c]))
    ensures Owned(WithCells(t, i, t.leaves[i].cells[j := c]))
            == Owned(t) + ChainSet(c.chain) - ChainSet(t.leaves[i].cells[j].chain)
    ensures Contents(WithCells(t, i, t.leaves[i].cells[j := c])) == Contents(t)[c.key := c.payload]
  {
    var l := t.leaves[i];
    OldLeafFits(pages, root, t, i);
    OthersSurvive(pages, after, root, t, i, j);
    FitsReplaced(after, t.leaves, i, l.cells, j, c);
    ChainsReplace(l.cells, j, c);
    LeafRewritten(pages, after, root, t, i, l.cells[j := c], l.cells[j].chain, c.chain);
    TreeOrdered(pages, root, t);
    ContentsReplaced(t, i, j, c);
  }

  lemma {:induction false} LeafKeepsCells(pages: Pages, after: Pages, root: PageId, t: Tree, i: nat)
    requires Inv(pages, root, t) && i < |t.leaves|
    requires ChangedAround(pages, after, t, i, [])
    ensures FitsLeaf(after, t.leaves, i, t.leaves[i].cells)
    ensures Untouched(pages, after, t, i)
  {
    OldLeafFits(pages, root, t, i);
    forall m | 0 <= m < |t.leaves[i].cells| ensures CellOk(after, t.leaves[i].cells[m]) {
      CellSurvives(pages, after, root, t, i, m, []);
    }
    OthersUntouched(pages, after, t, i, []);
  }

  lemma {:induction false} CellInserted(pages: Pages, after: Pages, root: PageId, t: Tree, i: nat, j: nat, c: Cell)
    requires Inv(pages, root, t) && i < |t.leaves| && Slots(t.leaves[i].cells, j, c.key)
    requires t.leaves[i].low <= c.key && (i + 1 < |t.leaves| ==> c.key < t.leaves[i + 1].low)
    requires CellOk(after, c) && Joining(t, c.chain)
    requires ChangedAround(pages, after, t, i, [])
    requires var l := t.leaves[i];
             l.id in after && LeafImage(after[l.id], l.(cells := InsertAt(l.cells, j, c)), NextLeaf(t.leaves, i))
    ensures Inv(after, root, WithCells(t, i, InsertAt(t.leaves[i].cells, j, c)))
    ensures Owned(WithCells(t, i, InsertAt(t.leaves[i].cells, j, c))) == Owned(t) + ChainSet(c.chain)
    ensures Contents(WithCells(t, i, InsertAt(t.leaves[i].cells, j, c))) == Contents(t)[c.key := c.payload]
  {
    var l := t.leaves[i];
    var cells' := InsertAt(l.cells, j, c);
    LeafKeepsCells(pages, after, root, t, i);
    FitsInserted(after, t.leaves, i, l.cells, j, c);
    ChainsInsert(l.cells, j, c);
    LeafRewritten(pages, after, root, t, i, cells', [], c.chain);
    TreeOrdered(after, root, WithCells(t, i, cells'));
    AllAscending(WithCells(t, i, cells').leaves);
    ContentsAround(t, i, cells');
    ContentsInserted(t, i, j, c, WithCells(t, i, cells').leaves);
  }
}
