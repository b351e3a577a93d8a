// Insert or replace: the leaf edit, the leaf split, and carrying a split up the recorded path.
module BTreeUpsert {
  import opened Bytes
  import opened PageImage
  import opened Wrappers
  import opened Paging
  import opened BTreeModel
  import opened BTreeShape
  import opened BTreeInvariant
  import opened BTreeGrowth
  import opened BTreeSplit
  import opened BTreeDivide
  import opened BTreeOverflow
  import opened BTreeFill
  import opened BTreeRead
  import opened BTreeUpdate
  import opened BTreeWrite
  import opened BTreePropagate

  // ------------------------------------------------------------ leaf edit

  // What a new cell brings: its overflow pages are in use and belong to nobody yet.
  ghost predicate Brings(pager: Pager, t: Tree, c: Cell)
    reads pager
  {
    CellOk(pager.pages, c) && Joining(t, c.chain) && ChainSet(c.chain) <= pager.Used()
  }

  lemma {:induction false} CellKept(pages: Pages, after: Pages, used: set<PageId>, t: Tree, c: Cell)
    requires CellOk(pages, c) && Joining(t, c.chain) && ChainSet(c.chain) <= used
    requires Agree(pages, after, used - Owned(t))
    ensures CellOk(after, c)
  {
    forall p | p in ChainSet(c.chain) ensures p in used - Owned(t) {
    }
    CellFrame(pages, after, c);
  }

  lemma {:induction false} ReplacedImage(p: Image, p': Image, l: LeafNode, next: PageId, j: nat, c: Cell)
    requires LeafImage(p, l, next) && j < |l.cells| && Replace(p, j, CellItem(c)) == Some(p')
    ensures LeafImage(p', l.(cells := l.cells[j := c]), next)
  {
    ReplaceExactly(p, j, CellItem(c));
    CellItemsReplace(l.cells, j, c);
  }

  // A failed replacement means the leaf holds something else too.
  lemma {:induction false} ReplaceFails(p: Image, l: LeafNode, next: PageId, j: nat, c: Cell)
    requires LeafImage(p, l, next) && j < |l.cells| && Replace(p, j, CellItem(c)) == None
    ensures |l.cells| >= 2
  {
    ReplaceExactly(p, j, CellItem(c));
    if |l.cells| == 1 {
      assert false;
    }
  }

  method ReplaceIn(pager: Pager, leaf: PageId, j: nat, item: Item, ghost root: PageId, ghost t: Tree, ghost i: nat,
                   ghost c: Cell)
    returns (done: bool, ghost t': Tree)
    requires Holds(pager, root, t) && i < |t.leaves| && leaf == t.leaves[i].id && j < |t.leaves[i].cells|
    requires item == CellItem(c) && c.key == t.leaves[i].cells[j].key && Brings(pager, t, c)
    modifies pager
    ensures t' == WithCells(t, i, if done then t.leaves[i].cells[j := c] else RemoveAt(t.leaves[i].cells, j))
    ensures Holds(pager, root, t')
    ensures done ==> Contents(t') == Contents(t)[c.key := c.payload]
    ensures done ==> Owned(t') == Owned(t) + ChainSet(c.chain) - ChainSet(t.leaves[i].cells[j].chain)
    ensures !done ==> Contents(t') == Contents(t) - {c.key} && |t.leaves[i].cells| >= 2
    ensures !done ==> Owned(t') == Owned(t) - ChainSet(t.leaves[i].cells[j].chain)
    ensures pager.Used() == old(pager.Used()) - ChainSet(t.leaves[i].cells[j].chain)
    ensures Agree(old(pager.pages), pager.pages, old(pager.Used()) - Owned(t))
  {
    ghost var before, used := pager.pages, pager.Used();
    ghost var l := t.leaves[i];
    CellChainOk(root, pager.pages, t, i, j);
    OldLeafFits(pager.pages, root, t, i);
    ReleaseCell(pager, pager.pages[leaf].items[j], root, t, i, j);
    ghost var mid := pager.pages;
    var replaced := Replace(pager.pages[leaf], j, item);
    done := replaced.Some?;
    var image := if done then replaced.value else PageImage.Remove(pager.pages[leaf], j);
    if done {
      ReplacedImage(mid[leaf], image, l, NextLeaf(t.leaves, i), j, c);
    } else {
      ReplaceFails(mid[leaf], l, NextLeaf(t.leaves, i), j, c);
      RemoveKeepsLayout(mid[leaf], j);
    }
    pager.WritePage(leaf, image);
    ChangedBy(before, mid, pager.pages, t, i, l.cells[j].chain, image);
    t' := WithCells(t, i, if done then l.cells[j := c] else RemoveAt(l.cells, j));
    CellKept(before, pager.pages, used, t, c);
    if done {
      CellReplaced(before, pager.pages, root, t, i, j, c);
    } else {
      CellRemoved(before, pager.pages, root, t, i, j);
    }
  }

  ghost predicate NoRoom(pages: Pages, leaf: PageId, size: nat) {
    leaf in pages && pages[leaf].Slotted? && FreeSpace(pages[leaf]) < ItemCost(size)
  }

  method InsertIn(pager: Pager, leaf: PageId, j: nat, item: Item, ghost root: PageId, ghost t: Tree, ghost i: nat,
                  ghost c: Cell)
    returns (done: bool, ghost t': Tree)
    requires Holds(pager, root, t) && i < |t.leaves| && leaf == t.leaves[i].id
    requires Slots(t.leaves[i].cells, j, c.key)
    requires t.leaves[i].low <= c.key && (i + 1 < |t.leaves| ==> c.key < t.leaves[i + 1].low)
    requires item == CellItem(c) && Brings(pager, t, c)
    modifies pager
    ensures Holds(pager, root, t') && t' == (if done then WithCells(t, i, InsertAt(t.leaves[i].cells, j, c)) else t)
    ensures done ==> Contents(t') == Contents(t)[c.key := c.payload] && Owned(t') == Owned(t) + ChainSet(c.chain)
    ensures !done <==> NoRoom(old(pager.pages), leaf, |item|)
    ensures done ==> Took(old(pager.pages), pager.pages, leaf, |item|, 1)
    ensures !done ==> t' == t && pager.pages == old(pager.pages)
    ensures pager.Used() == old(pager.Used())
    ensures Agree(old(pager.pages), pager.pages, old(pager.Used()) - Owned(t))
  {
    ghost var before, used := pager.pages, pager.Used();
    ghost var l := t.leaves[i];
    OldLeafFits(pager.pages, root, t, i);
    InsertKeepsLayout(pager.pages[leaf], j, item);
    var inserted := Insert(pager.pages[leaf], j, item);
    done := inserted.Some?;
    t' := t;
    if done {
      NodeOwned(t.levels, 0, i);
      assert t.levels[0][i].id == leaf;
      pager.WritePage(leaf, inserted.value);
      ChangedBy(before, before, pager.pages, t, i, [], inserted.value);
      CellItemsInsert(l.cells, j, c);
      CellKept(before, pager.pages, used, t, c);
      CellInserted(before, pager.pages, root, t, i, j, c);
      t' := WithCells(t, i, InsertAt(l.cells, j, c));
    }
  }

  // --------------------------------------------------------- leaf split

  // `t'` is `t` with one more cell and one more leaf, not yet known to the level above.
  ghost predicate Divided(pages: Pages, root: PageId, t: Tree, t': Tree, i: nat, c: Cell, sep: u64, right: PageId)
    requires i < |t.leaves| && |t.levels| >= 1
  {
    && Growing(pages, root, t', 1, i + 1)
    && t'.levels[0][i + 1] == Entry(sep, right)
    && RemoveAt(t'.levels[0], i + 1) == t.levels[0] && t'.levels[1..] == t.levels[1..]
    && Contents(t') == Contents(t)[c.key := c.payload]
    && Owned(t') == Owned(t) + ChainSet(c.chain) + {right}
  }

  lemma {:induction false} SplitTreeLevels(t: Tree, i: nat, cells: seq<Cell>, s: nat, right: PageId)
    requires i < |t.leaves| && 1 <= s < |cells|
    requires |t.levels| >= 1 && |t.levels[0]| == |t.leaves|
    ensures var t' := SplitTree(t, i, cells, s, right);
            && t'.levels[0][i + 1] == Entry(cells[s].key, right)
            && RemoveAt(t'.levels[0], i + 1) == t.levels[0] && t'.levels[1..] == t.levels[1..]
  {
  }

  // What a page of cells costs, before and after the new one.
  lemma {:induction false} OverfullLeaf(pages: Pages, root: PageId, t: Tree, i: nat, j: nat, c: Cell)
    requires Inv(pages, root, t) && i < |t.leaves| && j <= |t.leaves[i].cells|
    ensures t.leaves[i].id in pages && LeafImage(pages[t.leaves[i].id], t.leaves[i], NextLeaf(t.leaves, i))
    ensures t.leaves[i].id in Owned(t)
    ensures var items := InsertAt(pages[t.leaves[i].id].items, j, CellItem(c));
            && items == CellItems(InsertAt(t.leaves[i].cells, j, c))
            && SmallItems(items) && TotalCost(items) <= CAPACITY + MAX_ITEM_COST
  {
    OldLeafFits(pages, root, t, i);
    NodeOwned(t.levels, 0, i);
    assert t.levels[0][i].id == t.leaves[i].id;
    CellItemsInsert(t.leaves[i].cells, j, c);
    CellItemsSmall(InsertAt(t.leaves[i].cells, j, c));
    OverfullCost(pages[t.leaves[i].id].items, j, CellItem(c));
  }

  lemma {:induction false} CellItemsCut(cells: seq<Cell>, s: nat)
    requires s < |cells|
    ensures CellItems(cells[..s]) == CellItems(cells)[..s] && CellItems(cells[s..]) == CellItems(cells)[s..]
    ensures ItemKey(CellItems(cells)[s]) == cells[s].key
  {
    CellItemKey(cells[s]);
  }

  ghost predicate IsLeaf(p: Image, next: PageId, items: seq<Item>) {
    p.Slotted? && p.kind.Leaf? && WellFormed(p) && p.extra == next && p.items == items
  }

  // `items` over two pages, `right` new and linked in between `leaf` and `sibling`.
  ghost predicate OverTwoPages(before: Pages, after: Pages, leaf: PageId, right: PageId, items: seq<Item>, s: nat,
                               sibling: PageId)
    requires s <= |items|
  {
    && leaf != right && leaf in after && right in after
    && IsLeaf(after[leaf], right, items[..s]) && IsLeaf(after[right], sibling, items[s..])
    && OnlyChanged(before, after, {leaf, right})
  }

  // Moves `items[s..]` to a new page linked in after `leaf`.
  method DivideLeaf(pager: Pager, leaf: PageId, items: seq<Item>, s: nat, sibling: PageId)
    returns (r: Result<PageId, Fault>)
    requires pager.Valid() && leaf in pager.Used() && s <= |items|
    requires TotalCost(items[..s]) <= CAPACITY && TotalCost(items[s..]) <= CAPACITY
    modifies pager
    ensures pager.Valid()
    ensures r.Err? ==> r.error == NoPages
    ensures r.Ok? ==>
            && r.value !in old(pager.Used()) && pager.Used() == old(pager.Used()) + {r.value} && r.value != NO_PAGE
            && OverTwoPages(old(pager.pages), pager.pages, leaf, r.value, items, s, sibling)
    ensures r.Err? ==> pager.pages == old(pager.pages) && pager.Used() == old(pager.Used())
  {
    var got := pager.AllocPage(Leaf);
    if got.None? {
      return Err(NoPages);
    }
    var right := got.value;
    var left := FillPage(Leaf, right, items[..s]);
    if left.None? {
      return Err(LeafHalfTooBig);
    }
    pager.WritePage(leaf, left.value);
    var rest := FillPage(Leaf, sibling, items[s..]);
    if rest.None? {
      return Err(LeafHalfTooBig);
    }
    pager.WritePage(right, rest.value);
    return Ok(right);
  }

  lemma {:induction false} TwoPagesFrame(before: Pages, after: Pages, used: set<PageId>, t: Tree, i: nat, right: PageId)
    requires i < |t.leaves| && t.leaves[i].id in Owned(t) && Owned(t) <= used && right !in used
    requires OnlyChanged(before, after, {t.leaves[i].id, right})
    ensures Agree(before, after, used - Owned(t)) && ChangedAround(before, after, t, i, []) && right !in Own(t)
  {
    assert right in Own(t) ==> right in Owned(t);
    assert t.leaves[i].id !in used - Owned(t) && right !in used - Owned(t);
  }

  lemma {:induction false} TwoPagesHold(before: Pages, after: Pages, t: Tree, i: nat, cells: seq<Cell>, s: nat,
                                        right: PageId)
    requires i < |t.leaves| && 1 <= s < |cells|
    requires OverTwoPages(before, after, t.leaves[i].id, right, CellItems(cells), s, NextLeaf(t.leaves, i))
    ensures TwoLeaves(after, t, i, cells, s, right)
  {
    CellItemsCut(cells, s);
  }

  // The division read as a change of tree.
  lemma {:induction false} LeafSplitDone(before: Pages, after: Pages, used: set<PageId>, root: PageId, t: Tree,
                                         i: nat, j: nat, c: Cell, items: seq<Item>, s: nat, right: PageId)
    requires Inv(before, root, t) && Owned(t) <= used && i < |t.leaves| && Slots(t.leaves[i].cells, j, c.key)
    requires t.leaves[i].low <= c.key && (i + 1 < |t.leaves| ==> c.key < t.leaves[i + 1].low)
    requires CellOk(before, c) && Joining(t, c.chain) && ChainSet(c.chain) <= used
    requires right !in used && right != NO_PAGE
    requires items == CellItems(InsertAt(t.leaves[i].cells, j, c)) && 1 <= s < |items|
    requires OverTwoPages(before, after, t.leaves[i].id, right, items, s, NextLeaf(t.leaves, i))
    ensures var cells := InsertAt(t.leaves[i].cells, j, c);
            Divided(after, root, t, SplitTree(t, i, cells, s, right), i, c, cells[s].key, right)
    ensures Agree(before, after, used - Owned(t))
  {
    var cells := InsertAt(t.leaves[i].cells, j, c);
    NodeOwned(t.levels, 0, i);
    assert t.levels[0][i].id == t.leaves[i].id;
    TwoPagesFrame(before, after, used, t, i, right);
    TwoPagesHold(before, after, t, i, cells, s, right);
    CellKept(before, after, used, t, c);
    LeafDivided(before, after, root, t, i, j, c, s, right);
    SplitTreeLevels(t, i, cells, s, right);
  }

  lemma {:induction false} TailSame<T>(s: seq<T>, s': seq<T>)
    requires |s| >= 1 && |s'| >= 1 && s[1..] == s'[1..]
    ensures |s'| == |s| && forall k :: 1 <= k < |s| ==> s'[k] == s[k]
  {
    assert |s'[1..]| == |s[1..]|;
    forall k | 1 <= k < |s| ensures s'[k] == s[k] {
      assert s'[k] == s'[1..][k - 1] && s[k] == s[1..][k - 1];
    }
  }

  lemma {:induction false} PathKept(levels: seq<Level>, levels': seq<Level>, path: seq<PageId>, key: u64)
    requires forall k :: 0 <= k < |levels| ==> Complete(levels[k])
    requires forall k :: 0 <= k < |levels'| ==> Complete(levels'[k])
    requires |levels'| == |levels| >= 1 && forall k :: 1 <= k < |levels| ==> levels'[k] == levels[k]
    requires OnPath(levels, path, key)
    ensures RestOfPath(levels', 1, path, key)
  {
  }

  // The split just made is where the recorded path expects it.
  lemma {:induction false} StartClimb(pages: Pages, root: PageId, t: Tree, t': Tree, i: nat, path: seq<PageId>,
                                      c: Cell, e: Entry)
    requires |t.levels| >= 1 && (forall k :: 0 <= k < |t.levels| ==> Complete(t.levels[k])) && Complete(t.levels[0])
    requires i < |t.leaves| && i == Locate(t.levels[0], c.key) && OnPath(t.levels, path, c.key)
    requires Divided(pages, root, t, t', i, c, e.low, e.id)
    ensures Climbing(pages, root, t', 1, i + 1, path, c.key, e)
  {
    TailSame(t.levels, t'.levels);
    PathKept(t.levels, t'.levels, path, c.key);
  }

  // The division, seen from the path that leads to it.
  lemma {:induction false} SplitClimbs(before: Pages, after: Pages, used: set<PageId>, root: PageId, t: Tree, i: nat,
                                       j: nat, c: Cell, items: seq<Item>, s: nat, right: PageId, path: seq<PageId>)
    returns (t': Tree)
    requires Inv(before, root, t) && Owned(t) <= used && i < |t.leaves| && Slots(t.leaves[i].cells, j, c.key)
    requires t.leaves[i].low <= c.key && (i + 1 < |t.leaves| ==> c.key < t.leaves[i + 1].low)
    requires CellOk(before, c) && Joining(t, c.chain) && ChainSet(c.chain) <= used
    requires right !in used && right != NO_PAGE
    requires items == CellItems(InsertAt(t.leaves[i].cells, j, c)) && 1 <= s < |items|
    requires OverTwoPages(before, after, t.leaves[i].id, right, items, s, NextLeaf(t.leaves, i))
    requires i == Locate(t.levels[0], c.key) && OnPath(t.levels, path, c.key)
    ensures Climbing(after, root, t', 1, i + 1, path, c.key, Entry(ItemKey(items[s]), right))
    ensures Contents(t') == Contents(t)[c.key := c.payload] && Owned(t') == Owned(t) + ChainSet(c.chain) + {right}
    ensures Agree(before, after, used - Owned(t))
  {
    var cells := InsertAt(t.leaves[i].cells, j, c);
    t' := SplitTree(t, i, cells, s, right);
    LeafSplitDone(before, after, used, root, t, i, j, c, items, s, right);
    CellItemsCut(cells, s);
    StartClimb(after, root, t, t', i, path, c, Entry(cells[s].key, right));
  }

  method SplitLeaf(pager: Pager, leaf: PageId, index: nat, item: Item, ghost root: PageId, ghost t: Tree,
                   ghost i: nat, ghost c: Cell, ghost path: seq<PageId>)
    returns (r: Result<(u64, PageId), Fault>, ghost t': Tree)
    requires Holds(pager, root, t) && i < |t.leaves| && leaf == t.leaves[i].id
    requires Slots(t.leaves[i].cells, index, c.key)
    requires t.leaves[i].low <= c.key && (i + 1 < |t.leaves| ==> c.key < t.leaves[i + 1].low)
    requires item == CellItem(c) && Brings(pager, t, c)
    requires i == Locate(t.levels[0], c.key) && OnPath(t.levels, path, c.key)
    modifies pager
    ensures pager.Valid()
    ensures r.Err? ==> r.error == (if t.leaves[i].cells == [] then SingleEntry else NoPages)
    ensures t.leaves[i].cells == [] ==> r.Err? && pager.pages == old(pager.pages) && pager.Used() == old(pager.Used())
    ensures r.Ok? ==> Climbing(pager.pages, root, t', 1, i + 1, path, c.key, Entry(r.value.0, r.value.1))
    ensures r.Ok? ==>
            Contents(t') == Contents(t)[c.key := c.payload] && Owned(t') == Owned(t) + ChainSet(c.chain) + {r.value.1}
    ensures r.Ok? ==> r.value.1 !in old(pager.Used()) && pager.Used() == old(pager.Used()) + {r.value.1}
    ensures Agree(old(pager.pages), pager.pages, old(pager.Used()) - Owned(t))
  {
    t' := t;
    ghost var before, used := pager.pages, pager.Used();
    OverfullLeaf(pager.pages, root, t, i, index, c);
    var sibling := pager.pages[leaf].extra;
    var items := InsertAt(pager.pages[leaf].items, index, item);
    if |items| < 2 {
      return Err(SingleEntry), t;
    }
    var s := ChooseSplit(items);
    var divided := DivideLeaf(pager, leaf, items, s, sibling);
    if divided.Err? {
      return Err(NoPages), t;
    }
    var right := divided.value;
    t' := SplitClimbs(before, pager.pages, used, root, t, i, index, c, items, s, right, path);
    return Ok((ItemKey(items[s]), right)), t';
  }

  // ----------------------------------------------------------- one leaf

  datatype LeafStep = Done | Full(at: nat)

  // Everything an edit of leaf `i` leaves alone.
  ghost predicate SameRange(t: Tree, t': Tree, i: nat)
    requires i < |t.leaves|
  {
    && t'.levels == t.levels && |t'.leaves| == |t.leaves|
    && t'.leaves[i].id == t.leaves[i].id && t'.leaves[i].low == t.leaves[i].low
    && (i + 1 < |t.leaves| ==> t'.leaves[i + 1].low == t.leaves[i + 1].low)
  }

  ghost predicate InLeaf(t: Tree, i: nat, key: u64) {
    i < |t.leaves| && t.leaves[i].low <= key && (i + 1 < |t.leaves| ==> key < t.leaves[i + 1].low)
  }

  // The pages given up between `t` and `t'`, and nothing else, went back to the pager.
  ghost predicate Shrunk(t: Tree, t': Tree, used: set<PageId>, used': set<PageId>) {
    Owned(t') <= Owned(t) && used' == used - (Owned(t) - Owned(t'))
  }

  // An empty leaf whose free space is still taken by removed items: nothing ever compacts it
  // for an insertion, and a single entry cannot be split.
  ghost predicate Jammed(pages: Pages, t: Tree, key: u64, size: nat)
    requires |t.levels| >= 1 && Complete(t.levels[0])
  {
    var i := Locate(t.levels[0], key);
    && i < |t.leaves| && t.leaves[i].cells == []
    && NoRoom(pages, t.leaves[i].id, ItemSize(size))
  }

  // How long an item with a payload of `n` bytes is.
  function ItemSize(n: nat): nat {
    if n <= MAX_INLINE then LEAF_HEADER + n else OVERFLOW_DESCRIPTOR
  }

  lemma {:induction false} ItemLength(c: Cell)
    ensures |CellItem(c)| == ItemSize(|c.payload|)
  {
  }

  lemma {:induction false} PutBack<K, V>(m: map<K, V>, k: K, v: V)
    ensures (m - {k})[k := v] == m[k := v]
  {
  }

  lemma {:induction false} AbsentKey<K, V>(m: map<K, V>, k: K)
    requires k !in m
    ensures m - {k} == m
  {
  }

  lemma {:induction false} ReplacedExchange(t: Tree, t': Tree, used: set<PageId>, added: set<PageId>, gone: set<PageId>)
    requires Owned(t') == Owned(t) + added - gone && Owned(t) <= used && added <= used && gone <= Owned(t)
             && added !! Owned(t)
    ensures Exchange(t, t', used, used - gone, added)
  {
  }

  lemma {:induction false} SlotAfterRemove(cells: seq<Cell>, j: nat)
    requires Ascending(cells) && j < |cells|
    ensures Slots(RemoveAt(cells, j), j, cells[j].key)
  {
    var rest := RemoveAt(cells, j);
    forall m | j <= m < |rest| ensures cells[j].key < rest[m].key {
      assert rest[m] == cells[m + 1];
    }
  }

  lemma {:induction false} BringsStill(pages: Pages, after: Pages, used: set<PageId>, t: Tree, t': Tree, c: Cell)
    requires CellOk(pages, c) && Joining(t, c.chain) && ChainSet(c.chain) <= used
    requires Agree(pages, after, used - Owned(t)) && Owned(t') <= Owned(t)
    ensures CellOk(after, c) && Joining(t', c.chain)
    ensures ChainSet(c.chain) <= used - (Owned(t) - Owned(t'))
  {
    CellKept(pages, after, used, t, c);
    forall p | p in c.chain ensures p !in Own(t') && p !in Owned(t) {
      assert p in Own(t') ==> p in Owned(t');
    }
  }

  method ReplaceCell(pager: Pager, leaf: PageId, j: nat, item: Item, ghost root: PageId, ghost t: Tree, ghost i: nat,
                     ghost c: Cell)
    returns (step: LeafStep, ghost t': Tree)
    requires Holds(pager, root, t) && InLeaf(t, i, c.key) && leaf == t.leaves[i].id
    requires j < |t.leaves[i].cells| && t.leaves[i].cells[j].key == c.key
    requires item == CellItem(c) && Brings(pager, t, c)
    modifies pager
    ensures Holds(pager, root, t') && SameRange(t, t', i)
    ensures step.Done? ==> Contents(t') == Contents(t)[c.key := c.payload]
    ensures step.Done? ==> Exchange(t, t', old(pager.Used()), pager.Used(), ChainSet(c.chain))
    ensures step.Full? ==>
            Contents(t') == Contents(t) - {c.key} && Slots(t'.leaves[i].cells, step.at, c.key) && Brings(pager, t', c)
    ensures step.Full? ==> Shrunk(t, t', old(pager.Used()), pager.Used()) && t'.leaves[i].cells != []
    ensures Agree(old(pager.pages), pager.pages, old(pager.Used()) - Owned(t))
  {
    ghost var before, used := pager.pages, pager.Used();
    CellChainOk(root, pager.pages, t, i, j);
    OldLeafFits(pager.pages, root, t, i);
    SlotAfterRemove(t.leaves[i].cells, j);
    ghost var gone := ChainSet(t.leaves[i].cells[j].chain);
    var done, t1 := ReplaceIn(pager, leaf, j, item, root, t, i, c);
    t' := t1;
    if done {
      step := Done;
      assert ChainSet(c.chain) !! Owned(t);
      ReplacedExchange(t, t', used, ChainSet(c.chain), gone);
    } else {
      step := Full(j);
      BringsStill(before, pager.pages, used, t, t', c);
    }
  }

  method InsertCell(pager: Pager, leaf: PageId, j: nat, item: Item, ghost root: PageId, ghost t: Tree, ghost i: nat,
                    ghost c: Cell)
    returns (step: LeafStep, ghost t': Tree)
    requires Holds(pager, root, t) && InLeaf(t, i, c.key) && leaf == t.leaves[i].id
    requires Slots(t.leaves[i].cells, j, c.key) && c.key !in Contents(t)
    requires item == CellItem(c) && Brings(pager, t, c) && i == Locate(t.levels[0], c.key)
    modifies pager
    ensures Holds(pager, root, t') && SameRange(t, t', i) && (step.Full? ==> t' == t)
    ensures step.Done? ==> Contents(t') == Contents(t)[c.key := c.payload]
    ensures step.Done? ==> Exchange(t, t', old(pager.Used()), pager.Used(), ChainSet(c.chain))
    ensures step.Full? ==>
            Contents(t') == Contents(t) - {c.key} && Slots(t'.leaves[i].cells, step.at, c.key) && Brings(pager, t', c)
    ensures step.Full? ==> Shrunk(t, t', old(pager.Used()), pager.Used())
    ensures step.Full? && t.leaves[i].cells == [] <==> Jammed(old(pager.pages), t, c.key, |c.payload|)
    ensures if NoRoom(old(pager.pages), leaf, |item|) then step.Full?
            else step.Done? && Took(old(pager.pages), pager.pages, leaf, |item|, 1)
    ensures Agree(old(pager.pages), pager.pages, old(pager.Used()) - Owned(t))
  {
    ghost var used := pager.Used();
    OldLeafFits(pager.pages, root, t, i);
    AbsentKey(Contents(t), c.key);
    ItemLength(c);
    var done, t1 := InsertIn(pager, leaf, j, item, root, t, i, c);
    t' := t1;
    if done {
      step := Done;
      assert ChainSet(c.chain) !! Owned(t);
      ReplacedExchange(t, t', used, ChainSet(c.chain), {});
    } else {
      step := Full(j);
    }
  }

  // ------------------------------------------------------------- upsert

  method EditLeaf(pager: Pager, leaf: PageId, key: u64, item: Item, ghost root: PageId, ghost t: Tree, ghost i: nat,
                  ghost c: Cell)
    returns (step: LeafStep, ghost t': Tree)
    requires Holds(pager, root, t) && leaf == Holder(t.levels, 0, key).id && i == Locate(t.levels[0], key)
    requires item == CellItem(c) && c.key == key && Brings(pager, t, c)
    modifies pager
    ensures Holds(pager, root, t') && InLeaf(t, i, key) && SameRange(t, t', i) && t.leaves[i].id == leaf
    ensures step.Done? ==> Contents(t') == Contents(t)[key := c.payload]
    ensures step.Done? ==> Exchange(t, t', old(pager.Used()), pager.Used(), ChainSet(c.chain))
    ensures step.Full? ==>
            Contents(t') == Contents(t) - {key} && Slots(t'.leaves[i].cells, step.at, key) && Brings(pager, t', c)
    ensures step.Full? ==> Shrunk(t, t', old(pager.Used()), pager.Used())
    ensures step.Full? && t'.leaves[i].cells == [] <==> Jammed(old(pager.pages), t, key, |c.payload|)
    ensures Jammed(old(pager.pages), t, key, |c.payload|) ==> t' == t
    ensures key !in Contents(t) && !NoRoom(old(pager.pages), leaf, |item|) ==>
            step.Done? && Took(old(pager.pages), pager.pages, leaf, |item|, 1)
    ensures Agree(old(pager.pages), pager.pages, old(pager.Used()) - Owned(t))
  {
    ghost var i0 := LeafFor(pager.pages, root, t, key);
    OldLeafFits(pager.pages, root, t, i);
    var slot := FindCell(pager.pages[leaf].items, key, t.leaves[i].cells);
    if slot.Found? {
      step, t' := ReplaceCell(pager, leaf, slot.at, item, root, t, i, c);
    } else {
      step, t' := InsertCell(pager, leaf, slot.at, item, root, t, i, c);
    }
  }

  // `t` gained the chain of the new cell and a leaf, then grew.
  lemma {:induction false} ClimbExchange(t: Tree, t1: Tree, t2: Tree, used: set<PageId>, used1: set<PageId>,
                                         used2: set<PageId>, chain: set<PageId>, right: PageId)
    requires Owned(t) <= used && chain <= used && chain !! Owned(t)
    requires Owned(t1) == Owned(t) + chain + {right} && right !in used && used1 == used + {right}
    requires Grown(t1, t2, used1, used2)
    ensures Exchange(t, t2, used, used2, chain)
  {
    assert used2 == (used - Owned(t)) + Owned(t2);
  }

  lemma {:induction false} SplitAgree(a: Pages, b: Pages, c: Pages, t: Tree, t1: Tree, used: set<PageId>,
                                      used1: set<PageId>, chain: set<PageId>, right: PageId)
    requires Owned(t1) == Owned(t) + chain + {right} && right !in used && used1 == used + {right}
    requires Agree(a, b, used - Owned(t)) && Agree(b, c, used1 - Owned(t1))
    ensures Agree(a, c, used - Owned(t) - chain)
  {
  }

  lemma {:induction false} ShrinkAgree(a: Pages, b: Pages, c: Pages, t: Tree, t1: Tree, used: set<PageId>,
                                       used1: set<PageId>, chain: set<PageId>)
    requires Shrunk(t, t1, used, used1)
    requires Agree(a, b, used - Owned(t)) && Agree(b, c, used1 - Owned(t1) - chain)
    ensures Agree(a, c, used - Owned(t) - chain)
  {
  }

  // The leaf is full: split it and carry the split up.
  method SplitAndClimb(pager: Pager, root: PageId, leaf: PageId, path: seq<PageId>, index: nat, item: Item,
                       ghost t: Tree, ghost i: nat, ghost c: Cell)
    returns (r: Result<PageId, Fault>, ghost t': Tree)
    requires Holds(pager, root, t) && InLeaf(t, i, c.key) && leaf == t.leaves[i].id
    requires Slots(t.leaves[i].cells, index, c.key)
    requires item == CellItem(c) && Brings(pager, t, c)
    requires i == Locate(t.levels[0], c.key) && OnPath(t.levels, path, c.key)
    modifies pager
    ensures pager.Valid()
    ensures r.Err? ==> r.error == (if t.leaves[i].cells == [] then SingleEntry else NoPages)
    ensures t.leaves[i].cells == [] ==> r.Err? && pager.pages == old(pager.pages) && pager.Used() == old(pager.Used())
    ensures r.Ok? ==> Holds(pager, r.value, t') && Contents(t') == Contents(t)[c.key := c.payload]
    ensures r.Ok? ==> Exchange(t, t', old(pager.Used()), pager.Used(), ChainSet(c.chain))
    ensures Agree(old(pager.pages), pager.pages, old(pager.Used()) - Owned(t) - ChainSet(c.chain))
  {
    ghost var before, used := pager.pages, pager.Used();
    t' := t;
    var split, t1 := SplitLeaf(pager, leaf, index, item, root, t, i, c, path);
    match split
    case Err(e) =>
      return Err(e), t';
    case Ok(v) =>
      ghost var mid, used1 := pager.pages, pager.Used();
      r, t' := Propagate(pager, root, path, v.0, v.1, t1, i + 1, c.key);
      SplitAgree(before, mid, pager.pages, t, t1, used, used1, ChainSet(c.chain), v.1);
      if r.Ok? {
        assert ChainSet(c.chain) !! Owned(t);
        ClimbExchange(t, t1, t', used, used1, pager.Used(), ChainSet(c.chain), v.1);
      }
  }

  // A cell just built is nobody's yet.
  lemma {:induction false} BuiltBrings(before: Pages, after: Pages, used: set<PageId>, used1: set<PageId>,
                                       root: PageId, t: Tree, c: Cell)
    requires Inv(before, root, t) && Owned(t) <= used && Agree(before, after, used)
    requires NoDuplicates(c.chain) && ChainSet(c.chain) !! used && NO_PAGE !in used1 && ChainSet(c.chain) <= used1
    ensures Inv(after, root, t) && Joining(t, c.chain)
  {
    forall p | p in Own(t) && p in before ensures p in after && after[p] == before[p] {
      assert p in Owned(t);
    }
    InvFrame(before, after, root, t);
    forall p | p in c.chain ensures p !in Own(t) && p != NO_PAGE {
      assert p in ChainSet(c.chain);
      assert p in Own(t) ==> p in Owned(t);
    }
  }

  // Building the cell, editing or splitting: together one exchange of trees.
  lemma {:induction false} UpsertExchange(t: Tree, t': Tree, used: set<PageId>, used': set<PageId>, chain: set<PageId>)
    requires Owned(t) <= used && chain !! used
    requires Exchange(t, t', used + chain, used', chain)
    ensures Exchange(t, t', used, used', {})
  {
    assert used' == (used - Owned(t)) + Owned(t');
  }

  lemma {:induction false} ShrinkExchange(t: Tree, t1: Tree, t2: Tree, used: set<PageId>, used1: set<PageId>,
                                          used2: set<PageId>, chain: set<PageId>)
    requires Owned(t) <= used && Shrunk(t, t1, used, used1) && Exchange(t1, t2, used1, used2, chain)
    ensures Exchange(t, t2, used, used2, chain)
  {
    assert used - Owned(t) == used1 - Owned(t1);
  }

  // Edits the leaf, and splits it if it is full.
  method StoreItem(pager: Pager, root: PageId, leaf: PageId, path: seq<PageId>, key: u64, item: Item, ghost t: Tree,
                   ghost c: Cell)
    returns (r: Result<PageId, Fault>, ghost t': Tree)
    requires Holds(pager, root, t) && leaf == Holder(t.levels, 0, key).id && OnPath(t.levels, path, key)
    requires item == CellItem(c) && c.key == key && Brings(pager, t, c)
    modifies pager
    ensures pager.Valid()
    ensures r.Ok? ==> Holds(pager, r.value, t') && Contents(t') == Contents(t)[key := c.payload]
    ensures r.Ok? ==> Exchange(t, t', old(pager.Used()), pager.Used(), ChainSet(c.chain))
    ensures r.Err? ==> r.error == (if Jammed(old(pager.pages), t, key, |c.payload|) then SingleEntry else NoPages)
    ensures Jammed(old(pager.pages), t, key, |c.payload|) ==>
            r.Err? && t' == t && Holds(pager, root, t) && pager.Used() == old(pager.Used())
    ensures key !in Contents(t) && !NoRoom(old(pager.pages), leaf, |item|) ==>
            r == Ok(root) && t'.levels == t.levels && Took(old(pager.pages), pager.pages, leaf, |item|, 1)
    ensures Agree(old(pager.pages), pager.pages, old(pager.Used()) - Owned(t) - ChainSet(c.chain))
  {
    ghost var before, used := pager.pages, pager.Used();
    ghost var i := Locate(t.levels[0], key);
    var step, t1 := EditLeaf(pager, leaf, key, item, root, t, i, c);
    ghost var mid, used1 := pager.pages, pager.Used();
    match step
    case Done =>
      return Ok(root), t1;
    case Full(index) =>
      r, t' := SplitAndClimb(pager, root, leaf, path, index, item, t1, i, c);
      if Jammed(before, t, key, |c.payload|) {
        t' := t;
      }
      ShrinkAgree(before, mid, pager.pages, t, t1, used, used1, ChainSet(c.chain));
      if r.Ok? {
        ShrinkExchange(t, t1, t', used, used1, pager.Used(), ChainSet(c.chain));
        PutBack(Contents(t), key, c.payload);
      }
  }

  lemma {:induction false} JammedStill(before: Pages, after: Pages, used: set<PageId>, root: PageId, t: Tree,
                                       key: u64, size: nat)
    requires Inv(before, root, t) && Owned(t) <= used && Agree(before, after, used)
    ensures Jammed(before, t, key, size) <==> Jammed(after, t, key, size)
  {
    var i := Locate(t.levels[0], key);
    OldLeafFits(before, root, t, i);
    NodeOwned(t.levels, 0, i);
    assert t.levels[0][i].id == t.leaves[i].id && t.leaves[i].id in Own(t) && t.leaves[i].id in Owned(t);
  }

  lemma {:induction false} BuildAgree(a: Pages, b: Pages, c: Pages, t: Tree, used: set<PageId>, chain: set<PageId>)
    requires Agree(a, b, used) && Agree(b, c, used + chain - Owned(t) - chain) && chain !! used
    ensures Agree(a, c, used - Owned(t))
  {
  }

  // Inserts or replaces `key`. Out of pages apart, it fails exactly on a jammed leaf; the tree is
  // then as it was, and the overflow pages of the payload, if it needs any, are lost.
  method Upsert(pager: Pager, root: PageId, key: u64, payload: seq<byte>, ghost t: Tree)
    returns (r: Result<PageId, Fault>, ghost t': Tree)
    requires Holds(pager, root, t)
    modifies pager
    ensures pager.Valid()
    ensures r.Ok? ==> Holds(pager, r.value, t') && Contents(t') == Contents(t)[key := payload]
    ensures r.Ok? ==> Exchange(t, t', old(pager.Used()), pager.Used(), {})
    ensures r.Err? ==> r.error == NoPages || (r.error == SingleEntry && Jammed(old(pager.pages), t, key, |payload|))
    ensures Jammed(old(pager.pages), t, key, |payload|) ==> r.Err? && t' == t && Holds(pager, root, t)
    ensures Jammed(old(pager.pages), t, key, |payload|) && |payload| <= MAX_INLINE ==> r == Err(SingleEntry)
    ensures r.Err? && r.error == SingleEntry ==>
            old(pager.Used()) <= pager.Used() && (pager.Used() == old(pager.Used()) <==> |payload| <= MAX_INLINE)
    ensures var leaf, size := Holder(t.levels, 0, key).id, ItemSize(|payload|);
            key !in Contents(t) && |payload| <= MAX_INLINE && !NoRoom(old(pager.pages), leaf, size) ==>
              r == Ok(root) && t'.levels == t.levels && Took(old(pager.pages), pager.pages, leaf, size, 1)
    ensures Agree(old(pager.pages), pager.pages, old(pager.Used()) - Owned(t))
  {
    ghost var before, used := pager.pages, pager.Used();
    t' := t;
    var d := Descend(pager, root, key, t);
    match d
    case Err(e) =>
      return Err(e), t';
    case Ok(v) =>
      var built, c := BuildItem(pager, key, payload);
      BuiltBrings(before, pager.pages, used, pager.Used(), root, t, c);
      match built
      case Err(e) =>
        return Err(e), t';
      case Ok(item) =>
        ghost var mid := pager.pages;
        ItemLength(c);
        JammedStill(before, mid, used, root, t, key, |payload|);
        r, t' := StoreItem(pager, root, v.0, v.1, key, item, t, c);
        BuildAgree(before, mid, pager.pages, t, used, ChainSet(c.chain));
        if r.Ok? {
          UpsertExchange(t, t', used, pager.Used(), ChainSet(c.chain));
        } else if r.error == SingleEntry {
          ChainLost(used, c.chain);
        }
  }

  lemma {:induction false} ChainLost(used: set<PageId>, chain: seq<PageId>)
    requires ChainSet(chain) !! used
    ensures used + ChainSet(chain) == used <==> chain == []
  {
    if chain != [] {
      assert chain[0] in ChainSet(chain);
    }
  }
}
