// A split leaves one level with an entry its parent does not list yet. These lemmas close that
// gap: by adding the entry to the parent, by splitting the parent and moving the gap up one
// level, or by growing a new root.
module BTreeGrowth {
  import opened Bytes
  import opened PageImage
  import opened BTreeModel
  import opened BTreeShape
  import opened BTreeInvariant

  // Every level is complete and linked to the one below, except that level `k` (which may be
  // one above the root) does not know about the entry at `pos` of level `k - 1`.
  ghost predicate Pending(pages: Pages, levels: seq<Level>, root: PageId, k: nat, pos: nat) {
    && 1 <= k <= |levels| && 1 <= pos < |levels[k - 1]|
    && (forall j :: 0 <= j < |levels| ==> Complete(levels[j]))
    && (forall j :: 1 <= j < |levels| && j != k ==> LinkedAt(pages, levels, j))
    && (k < |levels| ==>
          && levels[|levels| - 1] == [Entry(0, root)]
          && Linked(pages, levels[k], RemoveAt(levels[k - 1], pos)))
    && (k == |levels| ==> RemoveAt(levels[k - 1], pos) == [Entry(0, root)])
  }

  ghost predicate Growing(pages: Pages, root: PageId, t: Tree, k: nat, pos: nat) {
    && Pending(pages, t.levels, root, k, pos)
    && t.levels[0] == LeafLevel(t.leaves)
    && LeavesOk(pages, t.leaves)
    && Unique(Own(t)) && NO_PAGE !in Own(t)
  }

  // ------------------------------------------------------------ one node

  lemma {:induction false} ItemEntriesInsert(items: seq<Item>, r: nat, sep: u64, right: PageId)
    requires forall i :: 0 <= i < |items| ==> |items[i]| == INTERNAL_ITEM
    requires r <= |items|
    ensures forall i :: 0 <= i < |items| + 1 ==> |InsertAt(items, r, InternalItem(sep, right))[i]| == INTERNAL_ITEM
    ensures ItemEntries(InsertAt(items, r, InternalItem(sep, right))) ==
            InsertAt(ItemEntries(items), r, Entry(sep, right))
  {
    InternalItemReadsBack(sep, right);
    var items' := InsertAt(items, r, InternalItem(sep, right));
    forall i | 0 <= i < |items'|
      ensures |items'[i]| == INTERNAL_ITEM
    {
      assert items'[i] == if i < r then items[i] else if i == r then InternalItem(sep, right) else items[i - 1];
    }
  }

  // How many separators an internal page holds before it refuses one.
  lemma {:induction false} NodeCapacity(p: Image)
    requires NodeImage(p)
    ensures |p.items| <= 510
    ensures FreeSpace(p) < ItemCost(INTERNAL_ITEM) <==> |p.items| == 510
  {
  }

  lemma {:induction false} InternalTotal(items: seq<Item>)
    requires forall i :: 0 <= i < |items| ==> |items[i]| == INTERNAL_ITEM
    ensures TotalLen(items) == INTERNAL_ITEM * |items|
  {
    if items != [] {
      assert forall i :: 0 <= i < |items[1..]| ==> items[1..][i] == items[i + 1];
      InternalTotal(items[1..]);
    }
  }

  // ---------------------------------------------------------- one level

  // Rewriting the node at `q` changes only what that node lists.
  lemma {:induction false} ExpandRewritten(pages: Pages, after: Pages, lvl: Level, q: nat)
    requires NodesOk(pages, lvl) && q < |lvl|
    requires lvl[q].id in after && NodeImage(after[lvl[q].id])
    requires forall i :: 0 <= i < |lvl| && i != q ==> lvl[i].id in after && after[lvl[i].id] == pages[lvl[i].id]
    ensures NodesOk(pages, lvl[..q]) && NodesOk(pages, lvl[q + 1..]) && NodesOk(after, lvl)
    ensures Expand(after, lvl) ==
            Expand(pages, lvl[..q]) + Children(after[lvl[q].id], lvl[q].low) + Expand(pages, lvl[q + 1..])
    ensures Expand(pages, lvl) ==
            Expand(pages, lvl[..q]) + Children(pages[lvl[q].id], lvl[q].low) + Expand(pages, lvl[q + 1..])
  {
    ExpandAround(pages, lvl, q);
    ExpandAround(after, lvl, q);
    var a, b := lvl[..q], lvl[q + 1..];
    assert forall i :: 0 <= i < |b| ==> b[i] == lvl[i + q + 1];
    ExpandFrame(pages, after, a);
    ExpandFrame(pages, after, b);
  }

  lemma {:induction false} InsertMiddle<T>(a: seq<T>, c: seq<T>, b: seq<T>, r: nat, x: T)
    requires r <= |c|
    ensures InsertAt(a + c + b, |a| + r, x) == a + InsertAt(c, r, x) + b
  {
  }

  lemma {:induction false} InsertUndoesRemove<T>(s: seq<T>, i: nat)
    requires i < |s|
    ensures InsertAt(RemoveAt(s, i), i, s[i]) == s
  {
  }

  // In a parent that does not list `sep` yet, `sep` belongs right after the child it split from.
  lemma {:induction false} SeparatorPlace(below: Level, a: Level, kids: Level, b: Level, r: nat, e: Entry)
    requires r + 1 <= |kids|
    requires Rising(below) && below == a + InsertAt(kids, r + 1, e) + b
    ensures forall m :: 0 <= m <= r ==> kids[m].low < e.low
    ensures forall m :: r < m < |kids| ==> e.low < kids[m].low
    ensures forall m :: 0 <= m < |b| ==> e.low < b[m].low
  {
    var kids' := InsertAt(kids, r + 1, e);
    RisingSlice(below, a, kids', b);
    assert kids'[r + 1] == e;
    forall m | 0 <= m <= r ensures kids[m].low < e.low {
      assert kids'[m] == kids[m];
    }
    forall m | r < m < |kids| ensures e.low < kids[m].low {
      assert kids'[m + 1] == kids[m];
    }
  }

  // -------------------------------------------------- closing the gap

  // What the parent of a pending entry looks like: node `q` of level `k` lists the child at
  // run position `r`, the entry just before the pending one.
  ghost predicate ParentOf(pages: Pages, levels: seq<Level>, k: nat, pos: nat, q: nat, r: nat) {
    && 1 <= k < |levels| && pos < |levels[k - 1]| && q < |levels[k]|
    && NodesOk(pages, levels[k])
    && r < |Children(pages[levels[k][q].id], levels[k][q].low)|
    && NodesOk(pages, levels[k][..q])
    && pos == |Expand(pages, levels[k][..q])| + r + 1
  }

  lemma {:induction false} ParentFound(pages: Pages, levels: seq<Level>, root: PageId, k: nat, pos: nat, key: u64)
    returns (q: nat, r: nat)
    requires Pending(pages, levels, root, k, pos) && k < |levels|
    requires Complete(RemoveAt(levels[k - 1], pos))
    requires Locate(RemoveAt(levels[k - 1], pos), key) == pos - 1
    ensures ParentOf(pages, levels, k, pos, q, r) && q == Locate(levels[k], key)
  {
    q := Locate(levels[k], key);
    LocateBelow(pages, levels[k], key);
    r := Locate(Children(pages[levels[k][q].id], levels[k][q].low), key);
  }

  // The level below, cut at the parent.
  lemma {:induction false} PendingCut(pages: Pages, levels: seq<Level>, root: PageId, k: nat, pos: nat, q: nat, r: nat)
    requires Pending(pages, levels, root, k, pos) && ParentOf(pages, levels, k, pos, q, r)
    ensures NodesOk(pages, levels[k][q + 1..])
    ensures levels[k - 1] ==
            Expand(pages, levels[k][..q])
            + InsertAt(Children(pages[levels[k][q].id], levels[k][q].low), r + 1, levels[k - 1][pos])
            + Expand(pages, levels[k][q + 1..])
  {
    ExpandAround(pages, levels[k], q);
    InsertUndoesRemove(levels[k - 1], pos);
    InsertMiddle(Expand(pages, levels[k][..q]), Children(pages[levels[k][q].id], levels[k][q].low),
                 Expand(pages, levels[k][q + 1..]), r + 1, levels[k - 1][pos]);
  }

  // Outside the levels being rewritten nothing changes.
  lemma {:induction false} OtherLinksKept(pages: Pages, after: Pages, levels: seq<Level>, k: nat, q: nat, j: nat)
    requires Unique(IdsOf(levels)) && k < |levels| && q < |levels[k]|
    requires 1 <= j < |levels| && j != k && LinkedAt(pages, levels, j)
    requires OnlyNode(pages, after, levels, k, q)
    ensures LinkedAt(after, levels, j)
  {
    forall i | 0 <= i < |levels[j]|
      ensures levels[j][i].id in after && after[levels[j][i].id] == pages[levels[j][i].id]
    {
      NodeOwned(levels, j, i);
      NodesDistinct(levels, j, i, k, q);
    }
    LinkedFrame(pages, after, levels[j], levels[j - 1]);
  }

  ghost predicate OnlyNode(pages: Pages, after: Pages, levels: seq<Level>, k: nat, q: nat)
    requires k < |levels| && q < |levels[k]|
  {
    forall p :: p in IdsOf(levels) && p != levels[k][q].id && p in pages ==> p in after && after[p] == pages[p]
  }

  lemma {:induction false} SameLevelKept(pages: Pages, after: Pages, levels: seq<Level>, k: nat, q: nat)
    requires Unique(IdsOf(levels)) && k < |levels| && q < |levels[k]|
    requires NodesOk(pages, levels[k])
    requires OnlyNode(pages, after, levels, k, q)
    ensures forall i :: 0 <= i < |levels[k]| && i != q ==>
                        levels[k][i].id in after && after[levels[k][i].id] == pages[levels[k][i].id]
  {
    forall i | 0 <= i < |levels[k]| && i != q
      ensures levels[k][i].id in after && after[levels[k][i].id] == pages[levels[k][i].id]
    {
      NodeOwned(levels, k, i);
      NodesDistinct(levels, k, i, k, q);
    }
  }

  lemma {:induction false} GapLinked(pages: Pages, after: Pages, levels: seq<Level>, root: PageId, k: nat, pos: nat,
                                     q: nat, r: nat)
    requires Pending(pages, levels, root, k, pos) && ParentOf(pages, levels, k, pos, q, r)
    requires Unique(IdsOf(levels)) && OnlyNode(pages, after, levels, k, q)
    requires var id, e := levels[k][q].id, levels[k - 1][pos];
             && id in after && NodeImage(after[id])
             && after[id].extra == pages[id].extra
             && after[id].items == InsertAt(pages[id].items, r, InternalItem(e.low, e.id))
    ensures LinkedAt(after, levels, k)
  {
    var id, e := levels[k][q].id, levels[k - 1][pos];
    SameLevelKept(pages, after, levels, k, q);
    ExpandRewritten(pages, after, levels[k], q);
    ChildGained(pages[id], after[id], levels[k][q].low, r, e);
    PendingCut(pages, levels, root, k, pos, q, r);
  }

  lemma {:induction false} ChildGained(p: Image, p': Image, low: u64, r: nat, e: Entry)
    requires NodeImage(p) && NodeImage(p') && r <= |p.items| && p'.extra == p.extra
    requires p'.items == InsertAt(p.items, r, InternalItem(e.low, e.id))
    ensures Children(p', low) == InsertAt(Children(p, low), r + 1, e)
  {
    ItemEntriesInsert(p.items, r, e.low, e.id);
  }

  // The parent had room: adding the item closes the gap for good.
  lemma {:induction false} GapClosed(pages: Pages, after: Pages, levels: seq<Level>, root: PageId, k: nat, pos: nat,
                                     q: nat, r: nat)
    requires Pending(pages, levels, root, k, pos) && ParentOf(pages, levels, k, pos, q, r)
    requires Unique(IdsOf(levels)) && OnlyNode(pages, after, levels, k, q)
    requires var id, e := levels[k][q].id, levels[k - 1][pos];
             && id in after && NodeImage(after[id])
             && after[id].extra == pages[id].extra
             && after[id].items == InsertAt(pages[id].items, r, InternalItem(e.low, e.id))
    ensures Structure(after, levels, root)
  {
    GapLinked(pages, after, levels, root, k, pos, q, r);
    forall j | 1 <= j < |levels| && j != k ensures LinkedAt(after, levels, j) {
      OtherLinksKept(pages, after, levels, k, q, j);
    }
  }

  // The two halves of a split node list, one after the other, what the node listed before.
  lemma {:induction false} HalvesList(p: Image, left: Image, right: Image, items: seq<Item>, mid: nat, low: u64)
    requires NodeImage(p) && NodeImage(left) && NodeImage(right)
    requires forall i :: 0 <= i < |items| ==> |items[i]| == INTERNAL_ITEM
    requires mid < |items|
    requires left.extra == p.extra && left.items == items[..mid]
    requires right.extra == InternalChild(items[mid]) && right.items == items[mid + 1..]
    ensures Children(left, low) + Children(right, ItemKey(items[mid])) == [Entry(low, p.extra)] + ItemEntries(items)
    ensures ItemEntries(items)[mid] == Entry(ItemKey(items[mid]), right.extra)
  {
    var es := ItemEntries(items);
    assert ItemEntries(items[..mid]) == es[..mid];
    assert ItemEntries(items[mid + 1..]) == es[mid + 1..];
    assert es == es[..mid] + ([es[mid]] + es[mid + 1..]);
  }

  // A full node, cut around its middle item into `id` and `fresh_`.
  ghost predicate CutNode(pages: Pages, after: Pages, id: PageId, fresh_: PageId, items: seq<Item>, mid: nat)
    requires id in pages && NodeImage(pages[id])
  {
    && 1 <= mid < |items|
    && (forall i :: 0 <= i < |items| ==> |items[i]| == INTERNAL_ITEM)
    && id in after && NodeImage(after[id])
    && after[id].extra == pages[id].extra && after[id].items == items[..mid]
    && fresh_ in after && NodeImage(after[fresh_])
    && after[fresh_].extra == InternalChild(items[mid]) && after[fresh_].items == items[mid + 1..]
  }

  // What the two halves list together is what the parent lists once the pending entry is in.
  lemma {:induction false} CutChildren(pages: Pages, after: Pages, e: Entry, fresh_: PageId, items: seq<Item>,
                                       mid: nat, r: nat, pending: Entry)
    requires e.id in pages && NodeImage(pages[e.id]) && r <= |pages[e.id].items|
    requires items == InsertAt(pages[e.id].items, r, InternalItem(pending.low, pending.id))
    requires CutNode(pages, after, e.id, fresh_, items, mid)
    ensures var kids := InsertAt(Children(pages[e.id], e.low), r + 1, pending);
            && Children(after[e.id], e.low) + Children(after[fresh_], ItemKey(items[mid])) == kids
            && mid + 1 < |kids| && kids[0].low == e.low && kids[mid + 1].low == ItemKey(items[mid])
  {
    HalvesList(pages[e.id], after[e.id], after[fresh_], items, mid, e.low);
    ItemEntriesInsert(pages[e.id].items, r, pending.low, pending.id);
    assert InsertAt(Children(pages[e.id], e.low), r + 1, pending) == [Entry(e.low, pages[e.id].extra)]
           + ItemEntries(items);
  }

  // The parent was full: it splits around its middle item and the gap moves one level up.
  lemma {:induction false} SplitLevel(pages: Pages, after: Pages, levels: seq<Level>, root: PageId, k: nat, pos: nat,
                                      q: nat, r: nat, items: seq<Item>, mid: nat, fresh_: PageId)
    requires Pending(pages, levels, root, k, pos) && ParentOf(pages, levels, k, pos, q, r)
    requires Unique(IdsOf(levels)) && OnlyNode(pages, after, levels, k, q)
    requires items == InsertAt(pages[levels[k][q].id].items, r,
             InternalItem(levels[k - 1][pos].low, levels[k - 1][pos].id))
    requires CutNode(pages, after, levels[k][q].id, fresh_, items, mid)
    ensures Linked(after, InsertAt(levels[k], q + 1, Entry(ItemKey(items[mid]), fresh_)), levels[k - 1])
    ensures Complete(InsertAt(levels[k], q + 1, Entry(ItemKey(items[mid]), fresh_)))
  {
    var lvl := levels[k];
    var up := Entry(ItemKey(items[mid]), fresh_);
    SameLevelKept(pages, after, levels, k, q);
    ExpandRewritten(pages, after, lvl, q);
    CutChildren(pages, after, lvl[q], fresh_, items, mid, r, levels[k - 1][pos]);
    PendingCut(pages, levels, root, k, pos, q, r);
    SplitExpand(pages, after, lvl, q, up);
    var kids := InsertAt(Children(pages[lvl[q].id], lvl[q].low), r + 1, levels[k - 1][pos]);
    SplitComplete(pages, lvl, q, up, levels[k - 1], kids, mid + 1);
  }

  lemma {:induction false} SplitComplete(pages: Pages, lvl: Level, q: nat, up: Entry, below: Level, kids: Level, m: nat)
    requires Complete(lvl) && q < |lvl| && NodesOk(pages, lvl[..q]) && NodesOk(pages, lvl[q + 1..])
    requires Rising(below) && below == Expand(pages, lvl[..q]) + kids + Expand(pages, lvl[q + 1..])
    requires 1 <= m < |kids| && kids[0].low == lvl[q].low && kids[m].low == up.low
    ensures Complete(InsertAt(lvl, q + 1, up))
  {
    var a, b := Expand(pages, lvl[..q]), Expand(pages, lvl[q + 1..]);
    RisingSlice(below, a, kids, b);
    if q + 1 < |lvl| {
      ExpandHead(pages, lvl[q + 1..]);
      assert b[0].low == lvl[q + 1].low;
    }
    CompleteInsert(lvl, q, up);
  }

  lemma {:induction false} CompleteInsert(lvl: Level, q: nat, e: Entry)
    requires Complete(lvl) && q < |lvl| && lvl[q].low < e.low
    requires q + 1 < |lvl| ==> e.low < lvl[q + 1].low
    ensures Complete(InsertAt(lvl, q + 1, e))
  {
    var lvl' := InsertAt(lvl, q + 1, e);
    forall i, j | 0 <= i < j < |lvl'| ensures lvl'[i].low < lvl'[j].low {
      assert i <= q ==> lvl[i].low <= lvl[q].low;
      assert j > q + 1 ==> lvl[q + 1].low <= lvl[j - 1].low;
    }
  }

  lemma {:induction false} OthersExpand(pages: Pages, after: Pages, lvl: Level, q: nat)
    requires q < |lvl| && NodesOk(pages, lvl[..q]) && NodesOk(pages, lvl[q + 1..])
    requires forall i :: 0 <= i < |lvl| && i != q ==> lvl[i].id in after && after[lvl[i].id] == pages[lvl[i].id]
    ensures NodesOk(after, lvl[..q]) && Expand(after, lvl[..q]) == Expand(pages, lvl[..q])
    ensures NodesOk(after, lvl[q + 1..]) && Expand(after, lvl[q + 1..]) == Expand(pages, lvl[q + 1..])
  {
    var b := lvl[q + 1..];
    assert forall i :: 0 <= i < |b| ==> b[i] == lvl[i + q + 1];
    ExpandFrame(pages, after, lvl[..q]);
    ExpandFrame(pages, after, b);
  }

  lemma {:induction false} SplitExpand(pages: Pages, after: Pages, lvl: Level, q: nat, up: Entry)
    requires NodesOk(pages, lvl) && NodesOk(after, lvl) && q < |lvl|
    requires up.id in after && NodeImage(after[up.id])
    requires NodesOk(pages, lvl[..q]) && NodesOk(pages, lvl[q + 1..])
    requires forall i :: 0 <= i < |lvl| && i != q ==> lvl[i].id in after && after[lvl[i].id] == pages[lvl[i].id]
    ensures NodesOk(after, InsertAt(lvl, q + 1, up))
    ensures Expand(after, InsertAt(lvl, q + 1, up)) ==
            Expand(pages, lvl[..q]) + (Children(after[lvl[q].id], lvl[q].low) + Children(after[up.id], up.low))
            + Expand(pages, lvl[q + 1..])
  {
    var a, b := lvl[..q], lvl[q + 1..];
    OthersExpand(pages, after, lvl, q);
    ExpandPair(after, lvl[q], up);
    ExpandThree(after, a, [lvl[q]] + [up], b);
    assert InsertAt(lvl, q + 1, up) == a + ([lvl[q]] + [up]) + b;
  }

  lemma {:induction false} ExpandPair(pages: Pages, x: Entry, y: Entry)
    requires x.id in pages && NodeImage(pages[x.id]) && y.id in pages && NodeImage(pages[y.id])
    ensures NodesOk(pages, [x] + [y])
    ensures Expand(pages, [x] + [y]) == Children(pages[x.id], x.low) + Children(pages[y.id], y.low)
  {
    ExpandOne(pages, x);
    ExpandOne(pages, y);
    ExpandAppend(pages, [x], [y]);
  }

  lemma {:induction false} ExpandThree(pages: Pages, a: Level, m: Level, b: Level)
    requires NodesOk(pages, a) && NodesOk(pages, m) && NodesOk(pages, b)
    ensures NodesOk(pages, a + m + b)
            && Expand(pages, a + m + b) == Expand(pages, a) + Expand(pages, m) + Expand(pages, b)
  {
    ExpandAppend(pages, a, m);
    ExpandAppend(pages, a + m, b);
  }

  lemma {:induction false} LinkCopied(pages: Pages, levels: seq<Level>, levels': seq<Level>, j: nat)
    requires 1 <= j < |levels| && j < |levels'|
    requires LinkedAt(pages, levels, j)
    requires levels'[j] == levels[j] && levels'[j - 1] == levels[j - 1]
    ensures LinkedAt(pages, levels', j)
  {
  }

  lemma {:induction false} GapMovedUp(pages: Pages, after: Pages, levels: seq<Level>, root: PageId, k: nat, pos: nat,
                                      q: nat, up: Entry)
    requires Pending(pages, levels, root, k, pos) && k < |levels| && q < |levels[k]|
    requires Unique(IdsOf(levels)) && OnlyNode(pages, after, levels, k, q)
    requires Linked(after, InsertAt(levels[k], q + 1, up), levels[k - 1])
    requires Complete(InsertAt(levels[k], q + 1, up))
    ensures Pending(after, levels[k := InsertAt(levels[k], q + 1, up)], root, k + 1, q + 1)
  {
    var levels' := levels[k := InsertAt(levels[k], q + 1, up)];
    assert RemoveAt(levels'[k], q + 1) == levels[k];
    forall j | 1 <= j < |levels| && j != k ensures LinkedAt(after, levels, j) {
      OtherLinksKept(pages, after, levels, k, q, j);
    }
    forall j | 1 <= j < |levels'| && j != k + 1 ensures LinkedAt(after, levels', j) {
      if j != k {
        LinkCopied(after, levels, levels', j);
      }
    }
    assert k + 1 < |levels| ==> LinkedAt(after, levels, k + 1);
  }

  // The split reached the top: a root over the two halves closes the gap.
  lemma {:induction false} RootGrown(pages: Pages, after: Pages, levels: seq<Level>, root: PageId, pos: nat,
                                     newRoot: PageId)
    requires Pending(pages, levels, root, |levels|, pos)
    requires var e := levels[|levels| - 1][pos];
             newRoot in after && NodeImage(after[newRoot])
             && after[newRoot].extra == root && after[newRoot].items == [InternalItem(e.low, e.id)]
    requires forall p :: p in IdsOf(levels) && p in pages ==> p in after && after[p] == pages[p]
    ensures Structure(after, levels + [[Entry(0, newRoot)]], newRoot)
  {
    var top := levels[|levels| - 1];
    var e := top[pos];
    InsertUndoesRemove(top, pos);
    assert top == [Entry(0, root), e];
    InternalItemReadsBack(e.low, e.id);
    assert ItemEntries(after[newRoot].items) == [e];
    ExpandOne(after, Entry(0, newRoot));
    assert Linked(after, [Entry(0, newRoot)], top);
    var levels' := levels + [[Entry(0, newRoot)]];
    forall j | 1 <= j < |levels| ensures LinkedAt(after, levels', j) {
      assert LinkedAt(pages, levels, j);
      forall i | 0 <= i < |levels[j]|
        ensures levels[j][i].id in after && after[levels[j][i].id] == pages[levels[j][i].id]
      {
        NodeOwned(levels, j, i);
      }
      LinkedFrame(pages, after, levels[j], levels[j - 1]);
    }
  }
}
