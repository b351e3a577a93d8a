// Changing the tree: create, remove, and the leaf half of upsert.
module BTreeWrite {
  import opened Bytes
  import opened PageImage
  import opened Wrappers
  import opened Paging
  import opened BTreeModel
  import opened BTreeShape
  import opened BTreeInvariant
  import opened BTreeOrder
  import opened BTreeOverflow
  import opened BTreeRead
  import opened BTreeUpdate

  // `pager` holds tree `t` under `root`.
  ghost predicate Holds(pager: Pager, root: PageId, t: Tree)
    reads pager
  {
    pager.Valid() && Inv(pager.pages, root, t) && Owned(t) <= pager.Used()
  }

  // Page `id` gave `size` bytes to `more` items without moving any other.
  ghost predicate Took(pages: Pages, after: Pages, id: PageId, size: nat, more: int) {
    && id in pages && id in after && pages[id].Slotted? && after[id].Slotted?
    && after[id].freeEnd == pages[id].freeEnd - size && |after[id].items| == |pages[id].items| + more
  }

  // -------------------------------------------------------------- create

  ghost function EmptyTree(id: PageId): Tree {
    Tree([LeafNode(0, id, [])], [[Entry(0, id)]])
  }

  lemma {:induction false} EmptyTreeOwn(id: PageId)
    ensures Own(EmptyTree(id)) == multiset{id} && CellsOf(EmptyTree(id).leaves) == []
  {
    var t := EmptyTree(id);
    assert t.levels[1..] == [] && t.leaves[1..] == [];
    assert LevelIds(t.levels[0]) == [id];
    assert IdsOf(t.levels) == multiset([id]) + IdsOf([]);
    assert CellsOf(t.leaves) == [] + CellsOf([]);
  }

  lemma {:induction false} EmptyTreeOk(pages: Pages, id: PageId)
    requires id != NO_PAGE && id in pages && pages[id] == Blank(Leaf)
    ensures Inv(pages, id, EmptyTree(id))
    ensures Owned(EmptyTree(id)) == {id} && Contents(EmptyTree(id)) == map[]
  {
    var t := EmptyTree(id);
    EmptyTreeOwn(id);
    assert LeafLevel(t.leaves) == t.levels[0];
    assert LeafAt(pages, t.leaves, 0) by {
      assert CellItems([]) == [];
    }
  }

  method Create(pager: Pager) returns (r: Result<PageId, Fault>, ghost t: Tree)
    requires pager.Valid()
    modifies pager
    ensures pager.Valid()
    ensures r.Ok? ==> Holds(pager, r.value, t) && Contents(t) == map[]
    ensures r.Ok? ==> Owned(t) !! old(pager.Used()) && pager.Used() == old(pager.Used()) + Owned(t)
    ensures r.Ok? ==> |t.levels| == 1 && r.value in pager.pages && pager.pages[r.value] == Blank(Leaf)
    ensures r.Err? ==> r.error == NoPages && pager.Used() == old(pager.Used())
    ensures Agree(old(pager.pages), pager.pages, old(pager.Used()))
  {
    var got := pager.AllocPage(Leaf);
    if got.None? {
      return Err(NoPages), Tree([], []);
    }
    pager.WritePage(got.value, SetExtra(pager.pages[got.value], NO_PAGE));
    t := EmptyTree(got.value);
    EmptyTreeOk(pager.pages, got.value);
    return Ok(got.value), t;
  }

  // --------------------------------------------------------------- items

  method BuildItem(pager: Pager, key: u64, payload: seq<byte>) returns (r: Result<Item, Fault>, ghost c: Cell)
    requires pager.Valid()
    modifies pager
    ensures pager.Valid()
    ensures c.key == key && c.payload == payload
    ensures r.Ok? ==> r.value == CellItem(c) && CellOk(pager.pages, c) && (c.chain == [] <==> |payload| <= MAX_INLINE)
    ensures r.Err? ==> r.error == NoPages
    ensures |payload| <= MAX_INLINE ==> r.Ok? && pager.pages == old(pager.pages)
    ensures NoDuplicates(c.chain) && ChainSet(c.chain) !! old(pager.Used())
    ensures pager.Used() == old(pager.Used()) + ChainSet(c.chain)
    ensures Agree(old(pager.pages), pager.pages, old(pager.Used()))
  {
    if |payload| <= MAX_INLINE {
      c := Cell(key, payload, []);
      assert ChainSet([]) == {};
      return Ok(ToLE(key, KEY_LEN) + [FLAG_INLINE] + payload), c;
    }
    var w, chain := WriteOverflow(pager, payload);
    c := Cell(key, payload, chain);
    match w
    case Err(e) => return Err(e), c;
    case Ok(first) =>
      return Ok(ToLE(key, KEY_LEN) + [FLAG_OVERFLOW] + ToLE(|payload|, 4) + ToLE(first, 4)), c;
  }

  method ReleaseItem(pager: Pager, item: Item, ghost c: Cell)
    requires pager.Valid()
    requires item == CellItem(c) && CellOk(pager.pages, c)
    requires NoDuplicates(c.chain) && ChainSet(c.chain) <= pager.Used()
    modifies pager
    ensures pager.Valid()
    ensures pager.Used() == old(pager.Used()) - ChainSet(c.chain)
    ensures OnlyChanged(old(pager.pages), pager.pages, ChainSet(c.chain))
  {
    if |c.payload| > MAX_INLINE {
      DescriptorFields(c);
    } else {
      assert ChainSet([]) == {};
    }
    if |item| >= OVERFLOW_DESCRIPTOR && item[KEY_LEN] == FLAG_OVERFLOW {
      var first := FromLE(LeField(item, KEY_LEN + 5, 4));
      FreeOverflow(pager, first, c.chain, Chunks(c.payload));
    }
  }

  lemma {:induction false} ChainRepeats(cells: seq<Cell>, j: nat, a: nat, b: nat)
    requires j < |cells| && a < b < |cells[j].chain| && cells[j].chain[a] == cells[j].chain[b]
    ensures ChainsOf(cells)[cells[j].chain[a]] >= 2
  {
    ChainsAround(cells, j);
    CountTwice(cells[j].chain, a, b);
  }

  lemma {:induction false} ChainHasNoRepeats(cells: seq<Cell>, j: nat)
    requires Unique(ChainsOf(cells)) && j < |cells|
    ensures NoDuplicates(cells[j].chain)
  {
    var chain := cells[j].chain;
    forall a, b | 0 <= a < b < |chain| ensures chain[a] != chain[b] {
      if chain[a] == chain[b] {
        ChainRepeats(cells, j, a, b);
      }
    }
  }

  lemma {:induction false} CellChainOk(root: PageId, pages: Pages, t: Tree, i: nat, j: nat)
    requires Inv(pages, root, t) && i < |t.leaves| && j < |t.leaves[i].cells|
    ensures CellOk(pages, t.leaves[i].cells[j])
    ensures NoDuplicates(t.leaves[i].cells[j].chain) && ChainSet(t.leaves[i].cells[j].chain) <= Owned(t)
    ensures t.leaves[i].id in Owned(t) && t.leaves[i].id !in ChainSet(t.leaves[i].cells[j].chain)
  {
    var cells := t.leaves[i].cells;
    assert LeafAt(pages, t.leaves, i);
    LeafChainsUnique(t, i);
    ChainHasNoRepeats(cells, j);
    UniqueParts(t);
    NodeOwned(t.levels, 0, i);
    assert t.levels[0][i].id == t.leaves[i].id;
    forall p | p in cells[j].chain ensures p in ChainsOf(CellsOf(t.leaves)) {
      CellChainOwned(cells, j, p);
    }
  }

  // -------------------------------------------------------------- remove

  // Releases the chain of cell `j` of leaf `i`; the rest of the tree is untouched.
  method ReleaseCell(pager: Pager, item: Item, ghost root: PageId, ghost t: Tree, ghost i: nat, ghost j: nat)
    requires Holds(pager, root, t) && i < |t.leaves| && j < |t.leaves[i].cells|
    requires item == CellItem(t.leaves[i].cells[j])
    modifies pager
    ensures pager.Valid()
    ensures pager.Used() == old(pager.Used()) - ChainSet(t.leaves[i].cells[j].chain)
    ensures OnlyChanged(old(pager.pages), pager.pages, ChainSet(t.leaves[i].cells[j].chain))
    ensures t.leaves[i].id in pager.Used() && t.leaves[i].id in pager.pages && t.leaves[i].id in old(pager.pages)
    ensures pager.pages[t.leaves[i].id] == old(pager.pages)[t.leaves[i].id]
  {
    CellChainOk(root, pager.pages, t, i, j);
    ReleaseItem(pager, item, t.leaves[i].cells[j]);
  }

  // Rewriting leaf page `i` after releasing the chain of its cell `j`.
  lemma {:induction false} ChangedBy(pages: Pages, mid: Pages, after: Pages, t: Tree, i: nat, chain: seq<PageId>,
                                     image: Image)
    requires i < |t.leaves|
    requires OnlyChanged(pages, mid, ChainSet(chain))
    requires after == mid[t.leaves[i].id := image]
    ensures ChangedAround(pages, after, t, i, chain)
  {
  }

  method RemoveFrom(pager: Pager, leaf: PageId, j: nat, ghost root: PageId, ghost t: Tree, ghost i: nat)
    returns (ghost t': Tree)
    requires Holds(pager, root, t) && i < |t.leaves| && leaf == t.leaves[i].id && j < |t.leaves[i].cells|
    modifies pager
    ensures t' == WithCells(t, i, RemoveAt(t.leaves[i].cells, j))
    ensures Holds(pager, root, t') && Contents(t') == Contents(t) - {t.leaves[i].cells[j].key}
    ensures Exchange(t, t', old(pager.Used()), pager.Used(), {})
    ensures Took(old(pager.pages), pager.pages, leaf, 0, -1)
    ensures Agree(old(pager.pages), pager.pages, old(pager.Used()) - Owned(t))
  {
    ghost var before := pager.pages;
    CellChainOk(root, pager.pages, t, i, j);
    OldLeafFits(pager.pages, root, t, i);
    ReleaseCell(pager, pager.pages[leaf].items[j], root, t, i, j);
    ghost var mid := pager.pages;
    RemoveKeepsLayout(pager.pages[leaf], j);
    var image := PageImage.Remove(pager.pages[leaf], j);
    pager.WritePage(leaf, image);
    ChangedBy(before, mid, pager.pages, t, i, t.leaves[i].cells[j].chain, image);
    CellRemoved(before, pager.pages, root, t, i, j);
    t' := WithCells(t, i, RemoveAt(t.leaves[i].cells, j));
  }

  // `t'` takes the place of `t`: of the pages in use, those of `t` are replaced by those of
  // `t'`, which are old pages of `t`, the pages `fresh_` written for it, or newly allocated.
  ghost predicate Exchange(t: Tree, t': Tree, used: set<PageId>, used': set<PageId>, fresh_: set<PageId>) {
    && Owned(t') * (used - Owned(t)) <= fresh_
    && fresh_ <= Owned(t')
    && used' == (used - Owned(t)) + Owned(t')
  }

  lemma {:induction false} ExchangeSame(t: Tree, used: set<PageId>)
    requires Owned(t) <= used
    ensures Exchange(t, t, used, used, {})
  {
  }

  // The leaf responsible for `key` and the slot its search ends at.
  lemma {:induction false} LeafFor(pages: Pages, root: PageId, t: Tree, key: u64) returns (i: nat)
    requires Inv(pages, root, t)
    ensures i < |t.leaves| && Holder(t.levels, 0, key).id == t.leaves[i].id && Locate(t.levels[0], key) == i
    ensures t.leaves[i].low <= key && (i + 1 < |t.leaves| ==> key < t.leaves[i + 1].low)
    ensures t.leaves[i].id in pages && pages[t.leaves[i].id].Slotted?
    ensures pages[t.leaves[i].id].items == CellItems(t.leaves[i].cells)
    ensures key in Contents(t) <==> HasKey(t.leaves[i].cells, key)
  {
    i := Locate(t.levels[0], key);
    LeafPage(pages, root, t, i);
    TreeOrdered(pages, root, t);
    KeyInItsLeaf(t.leaves, key, i);
  }

  // Searching the items of a leaf is searching its cells.
  method FindCell(items: seq<Item>, key: u64, ghost cells: seq<Cell>) returns (slot: Slot)
    requires items == CellItems(cells) && Ascending(cells)
    ensures slot.Found? ==> slot.at < |cells| && cells[slot.at].key == key && HasKey(cells, key)
    ensures slot.Missing? ==> Slots(cells, slot.at, key) && !HasKey(cells, key)
  {
    CellKeysRise(cells);
    slot := SlotSearch(items, key);
    if slot.Found? {
      assert cells[slot.at].key == key;
    }
  }

  // Removes `key` if present; nodes are never merged, and the page gets none of the bytes back.
  method Remove(pager: Pager, root: PageId, key: u64, ghost t: Tree) returns (r: Result<bool, Fault>, ghost t': Tree)
    requires Holds(pager, root, t)
    modifies pager
    ensures r == Ok(key in Contents(t))
    ensures Holds(pager, root, t') && Contents(t') == Contents(t) - {key}
    ensures Exchange(t, t', old(pager.Used()), pager.Used(), {})
    ensures t'.levels == t.levels
    ensures key in Contents(t) ==> Took(old(pager.pages), pager.pages, Holder(t.levels, 0, key).id, 0, -1)
    ensures Agree(old(pager.pages), pager.pages, old(pager.Used()) - Owned(t))
  {
    t' := t;
    ExchangeSame(t, pager.Used());
    var d := Descend(pager, root, key, t);
    match d
    case Err(e) =>
      return Err(e), t;
    case Ok(v) =>
      r, t' := RemoveKey(pager, v.0, key, root, t);
  }

  method RemoveKey(pager: Pager, leaf: PageId, key: u64, ghost root: PageId, ghost t: Tree)
    returns (r: Result<bool, Fault>, ghost t': Tree)
    requires Holds(pager, root, t) && leaf == Holder(t.levels, 0, key).id
    modifies pager
    ensures r == Ok(key in Contents(t))
    ensures Holds(pager, root, t') && Contents(t') == Contents(t) - {key}
    ensures Exchange(t, t', old(pager.Used()), pager.Used(), {})
    ensures t'.levels == t.levels && (key in Contents(t) ==> Took(old(pager.pages), pager.pages, leaf, 0, -1))
    ensures Agree(old(pager.pages), pager.pages, old(pager.Used()) - Owned(t))
  {
    ghost var i := LeafFor(pager.pages, root, t, key);
    OldLeafFits(pager.pages, root, t, i);
    var slot := FindCell(pager.pages[leaf].items, key, t.leaves[i].cells);
    if slot.Found? {
      t' := RemoveFrom(pager, leaf, slot.at, root, t, i);
      r := Ok(true);
    } else {
      ExchangeSame(t, pager.Used());
      assert Contents(t) - {key} == Contents(t);
      t' := t;
      r := Ok(false);
    }
  }
}
