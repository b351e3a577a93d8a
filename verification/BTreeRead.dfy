// Finding things: the binary search inside a page, the descent from the root, lookup and the
// ordered seek every scan is built on.
module BTreeRead {
  import opened Bytes
  import opened PageImage
  import opened Wrappers
  import opened Paging
  import opened BTreeModel
  import opened BTreeShape
  import opened BTreeInvariant
  import opened BTreeDepth
  import opened BTreeOrder
  import opened BTreeOverflow

  datatype Slot = Found(at: nat) | Missing(at: nat)

  ghost predicate KeysRise(items: seq<Item>) {
    forall i, j :: 0 <= i < j < |items| ==> ItemKey(items[i]) < ItemKey(items[j])
  }

  // `Missing` carries the position the key would be inserted at.
  method SlotSearch(items: seq<Item>, key: u64) returns (r: Slot)
    ensures r.Found? ==> r.at < |items| && ItemKey(items[r.at]) == key
    ensures r.Missing? ==> r.at <= |items|
    ensures r.Missing? && KeysRise(items) ==>
            && (forall m :: 0 <= m < r.at ==> ItemKey(items[m]) < key)
            && (forall m :: r.at <= m < |items| ==> key < ItemKey(items[m]))
  {
    var lo, hi := 0, |items|;
    while lo < hi
      invariant 0 <= lo <= hi <= |items|
      invariant KeysRise(items) ==> forall m :: 0 <= m < lo ==> ItemKey(items[m]) < key
      invariant KeysRise(items) ==> forall m :: hi <= m < |items| ==> key < ItemKey(items[m])
    {
      var mid := (lo + hi) / 2;
      var k := ItemKey(items[mid]);
      if k < key {
        lo := mid + 1;
      } else if k > key {
        hi := mid;
      } else {
        return Found(mid);
      }
    }
    return Missing(lo);
  }

  lemma {:induction false} ChildrenKeys(p: Image, low: u64)
    requires NodeImage(p) && Rising(Children(p, low))
    ensures KeysRise(p.items)
    ensures forall m :: 0 <= m < |p.items| ==>
              Children(p, low)[m + 1] == Entry(ItemKey(p.items[m]), InternalChild(p.items[m]))
  {
    var kids := Children(p, low);
    assert forall m :: 0 <= m < |p.items| ==> kids[m + 1] == Entry(ItemKey(p.items[m]), InternalChild(p.items[m]));
    forall i, j | 0 <= i < j < |p.items| ensures ItemKey(p.items[i]) < ItemKey(p.items[j]) {
      assert kids[i + 1].low < kids[j + 1].low;
    }
  }

  lemma {:induction false} ChildAt(p: Image, low: u64, i: nat)
    requires NodeImage(p) && i <= |p.items|
    ensures Children(p, low)[i].id == if i == 0 then p.extra else InternalChild(p.items[i - 1])
    ensures Children(p, low)[i].low == if i == 0 then low else ItemKey(p.items[i - 1])
  {
  }

  // The child whose range covers `key`.
  method ChildFor(p: Image, key: u64, ghost low: u64) returns (id: PageId)
    requires NodeImage(p) && low <= key && Rising(Children(p, low))
    ensures id == Children(p, low)[Locate(Children(p, low), key)].id
  {
    ghost var kids := Children(p, low);
    assert KeysRise(p.items) by {
      ChildrenKeys(p, low);
    }
    var slot := SlotSearch(p.items, key);
    match slot
    case Found(i) =>
      id := InternalChild(p.items[i]);
      ChildAt(p, low, 0);
      ChildAt(p, low, i + 1);
      FoundBetween(kids, key, i);
    case Missing(i) =>
      id := if i == 0 then p.extra else InternalChild(p.items[i - 1]);
      ChildAt(p, low, i);
      MissingBetween(p, key, low, i);
  }

  lemma {:induction false} FoundBetween(kids: Level, key: u64, i: nat)
    requires Rising(kids) && i + 1 < |kids| && kids[0].low <= key && kids[i + 1].low == key
    ensures Locate(kids, key) == i + 1
  {
    assert i + 2 < |kids| ==> kids[i + 1].low < kids[i + 2].low;
    LocateIs(kids, key, i + 1);
  }

  lemma {:induction false} MissingBetween(p: Image, key: u64, low: u64, i: nat)
    requires NodeImage(p) && low <= key && Rising(Children(p, low)) && i <= |p.items|
    requires i > 0 ==> ItemKey(p.items[i - 1]) < key
    requires i < |p.items| ==> key < ItemKey(p.items[i])
    ensures Locate(Children(p, low), key) == i
  {
    ChildrenKeys(p, low);
    LocateIs(Children(p, low), key, i);
  }

  // The entry of level `k` responsible for `key`.
  ghost function Holder(levels: seq<Level>, k: nat, key: u64): Entry
    requires k < |levels| && Complete(levels[k])
  {
    levels[k][Locate(levels[k], key)]
  }

  // `path` is the nodes from the root down to just above the leaf responsible for `key`.
  ghost predicate OnPath(levels: seq<Level>, path: seq<PageId>, key: u64)
    requires forall k :: 0 <= k < |levels| ==> Complete(levels[k])
  {
    && |path| == |levels| - 1
    && forall j :: 0 <= j < |path| ==> path[j] == Holder(levels, |levels| - 1 - j, key).id
  }

  // `e` is an internal node whose child for `key` is `next`.
  ghost predicate LeadsTo(pages: Pages, e: Entry, key: u64, next: Entry) {
    && e.id in pages && NodeImage(pages[e.id])
    && e.low <= key && Rising(Children(pages[e.id], e.low))
    && Children(pages[e.id], e.low)[Locate(Children(pages[e.id], e.low), key)] == next
  }

  ghost predicate LeadsDown(pages: Pages, hs: seq<Entry>, key: u64, k: nat)
    requires 1 <= k < |hs|
  {
    LeadsTo(pages, hs[k], key, hs[k - 1])
  }

  // The nodes a search for `key` passes, leaf first.
  ghost predicate Walk(pages: Pages, hs: seq<Entry>, key: u64) {
    && 1 <= |hs| <= DESCENT_LIMIT
    && hs[0].id in pages && pages[hs[0].id].kind.Leaf?
    && forall k :: 1 <= k < |hs| ==> LeadsDown(pages, hs, key, k)
  }

  lemma {:induction false} StepDown(pages: Pages, above: Level, below: Level, key: u64)
    requires Linked(pages, above, below) && Complete(above) && Complete(below)
    ensures LeadsTo(pages, above[Locate(above, key)], key, below[Locate(below, key)])
  {
    var q := Locate(above, key);
    var kids := Children(pages[above[q].id], above[q].low);
    LocateBelow(pages, above, key);
    ExpandAround(pages, above, q);
    MiddleAt(Expand(pages, above[..q]), kids, Expand(pages, above[q + 1..]), Locate(kids, key));
  }

  lemma {:induction false} MiddleAt<T>(a: seq<T>, m: seq<T>, b: seq<T>, i: nat)
    requires i < |m|
    ensures (a + m + b)[|a| + i] == m[i]
  {
  }

  ghost function Holders(levels: seq<Level>, key: u64): (hs: seq<Entry>)
    requires forall k :: 0 <= k < |levels| ==> Complete(levels[k])
    ensures |hs| == |levels|
    ensures forall k :: 0 <= k < |levels| ==> hs[k] == Holder(levels, k, key)
  {
    seq(|levels|, k requires 0 <= k < |levels| => Holder(levels, k, key))
  }

  lemma {:induction false} SearchWalks(pages: Pages, root: PageId, t: Tree, key: u64)
    requires Inv(pages, root, t)
    ensures Walk(pages, Holders(t.levels, key), key)
    ensures Holders(t.levels, key)[|t.levels| - 1].id == root
  {
    var hs := Holders(t.levels, key);
    DepthBound(pages, root, t);
    LocateIs(t.levels[|t.levels| - 1], key, 0);
    LeafPage(pages, root, t, Locate(t.levels[0], key));
    forall k | 1 <= k < |hs| ensures LeadsDown(pages, hs, key, k) {
      assert LinkedAt(pages, t.levels, k);
      StepDown(pages, t.levels[k], t.levels[k - 1], key);
    }
  }

  method DescendAlong(pager: Pager, root: PageId, key: u64, ghost hs: seq<Entry>)
    returns (r: Result<(PageId, seq<PageId>), Fault>)
    requires Walk(pager.pages, hs, key) && root == hs[|hs| - 1].id
    ensures r.Ok? && r.value.0 == hs[0].id
    ensures |r.value.1| == |hs| - 1 && forall j :: 0 <= j < |hs| - 1 ==> r.value.1[j] == hs[|hs| - 1 - j].id
  {
    var path: seq<PageId> := [];
    var id := root;
    for step := 0 to DESCENT_LIMIT
      invariant |path| == step < |hs|
      invariant id == hs[|hs| - 1 - step].id
      invariant forall j :: 0 <= j < step ==> path[j] == hs[|hs| - 1 - j].id
    {
      ghost var k := |hs| - 1 - step;
      assert k > 0 ==> LeadsDown(pager.pages, hs, key, k);
      var p := pager.pages[id];
      if p.kind == Leaf {
        return Ok((id, path));
      } else if p.kind == Internal {
        path := path + [id];
        id := ChildFor(p, key, hs[k].low);
      } else {
        return Err(NotANode);
      }
    }
    return Err(TooDeep);
  }

  // The leaf that would contain `key`, and the internal nodes passed on the way.
  method Descend(pager: Pager, root: PageId, key: u64, ghost t: Tree) returns (r: Result<(PageId, seq<PageId>), Fault>)
    requires Inv(pager.pages, root, t)
    ensures r.Ok? && r.value.0 == Holder(t.levels, 0, key).id && OnPath(t.levels, r.value.1, key)
  {
    SearchWalks(pager.pages, root, t, key);
    r := DescendAlong(pager, root, key, Holders(t.levels, key));
  }

  // What the page of leaf `i` holds.
  lemma {:induction false} LeafPage(pages: Pages, root: PageId, t: Tree, i: nat)
    requires Inv(pages, root, t) && i < |t.levels[0]|
    ensures |t.levels[0]| == |t.leaves| && t.levels[0][i].id == t.leaves[i].id && t.levels[0][i].low == t.leaves[i].low
    ensures LeafOk(pages, t.leaves[i], NextLeaf(t.leaves, i))
    ensures t.levels[0][i].id in pages && pages[t.levels[0][i].id].Slotted? && pages[t.levels[0][i].id].kind.Leaf?
    ensures pages[t.levels[0][i].id].items == CellItems(t.leaves[i].cells)
    ensures KeysRise(CellItems(t.leaves[i].cells))
  {
    assert LeafAt(pages, t.leaves, i);
    CellKeysRise(t.leaves[i].cells);
  }

  lemma {:induction false} CellKeysRise(cells: seq<Cell>)
    requires Ascending(cells)
    ensures KeysRise(CellItems(cells))
    ensures forall m :: 0 <= m < |cells| ==> ItemKey(CellItems(cells)[m]) == cells[m].key
  {
    forall m | 0 <= m < |cells| ensures ItemKey(CellItems(cells)[m]) == cells[m].key {
      CellItemKey(cells[m]);
    }
  }

  // A payload comes back unless its length does not fit the descriptor's 32 bits.
  ghost function Readable(payload: seq<byte>): Result<seq<byte>, Fault> {
    if |payload| < U32 then Ok(payload) else Err(LengthMismatch)
  }

  method PayloadOf(pager: Pager, item: Item, ghost c: Cell) returns (r: Result<seq<byte>, Fault>)
    requires item == CellItem(c) && CellOk(pager.pages, c)
    ensures r == Readable(c.payload)
  {
    if |item| < LEAF_HEADER {
      return Err(ShortItem);
    }
    if item[KEY_LEN] == FLAG_INLINE {
      assert |c.payload| <= MAX_INLINE by {
        if |c.payload| > MAX_INLINE {
          DescriptorFields(c);
        }
      }
      return Ok(item[LEAF_HEADER..]);
    } else if item[KEY_LEN] == FLAG_OVERFLOW {
      DescriptorFields(c);
      if |item| < OVERFLOW_DESCRIPTOR {
        return Err(TruncatedDescriptor);
      }
      var total := FromLE(LeField(item, LEAF_HEADER, 4));
      var first := FromLE(LeField(item, LEAF_HEADER + 4, 4));
      assert |c.payload| < U32 ==> total == |c.payload|;
      r := ReadOverflow(pager, first, total, c.chain, c.payload);
    } else {
      return Err(UnknownFlag);
    }
  }

  // Payload stored under `key`: the tree is a map.
  method Lookup(pager: Pager, root: PageId, key: u64, ghost t: Tree) returns (r: Result<Option<seq<byte>>, Fault>)
    requires Inv(pager.pages, root, t)
    ensures key !in Contents(t) ==> r == Ok(None)
    ensures key in Contents(t) ==>
            r == match Readable(Contents(t)[key]) case Ok(payload) => Ok(Some(payload)) case Err(e) => Err(e)
  {
    var d := Descend(pager, root, key, t);
    match d {
      case Err(e) => return Err(e);
      case Ok(_) =>
    }
    ghost var i := Locate(t.levels[0], key);
    LeafPage(pager.pages, root, t, i);
    TreeOrdered(pager.pages, root, t);
    KeyInItsLeaf(t.leaves, key, i);
    ghost var cells := t.leaves[i].cells;
    CellKeysRise(cells);
    var items := pager.pages[d.value.0].items;
    var slot := SlotSearch(items, key);
    match slot
    case Missing(_) =>
      return Ok(None);
    case Found(j) =>
      assert cells[j].key == key;
      var payload := PayloadOf(pager, items[j], cells[j]);
      match payload
      case Ok(bytes) => return Ok(Some(bytes));
      case Err(e) => return Err(e);
  }
}
