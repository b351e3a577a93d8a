// Carrying a split up the recorded path.
module BTreePropagate {
  import opened Bytes
  import opened PageImage
  import opened Wrappers
  import opened Paging
  import opened BTreeModel
  import opened BTreeShape
  import opened BTreeInvariant
  import opened BTreeGrowth
  import opened BTreeStep
  import opened BTreeOverflow
  import opened BTreeFill
  import opened BTreeRead
  import opened BTreeWrite

  // The entry `(sep, right)` of level `k - 1` is pending, and `path` still lists the nodes from
  // the root down to the one that has to take it.
  ghost predicate Climbing(pages: Pages, root: PageId, t: Tree, k: nat, pos: nat, path: seq<PageId>, key: u64,
                           e: Entry) {
    && Growing(pages, root, t, k, pos)
    && t.levels[k - 1][pos] == e
    && Complete(RemoveAt(t.levels[k - 1], pos)) && Locate(RemoveAt(t.levels[k - 1], pos), key) == pos - 1
    && RestOfPath(t.levels, k, path, key)
  }

  ghost predicate RestOfPath(levels: seq<Level>, k: nat, path: seq<PageId>, key: u64)
    requires forall j :: 0 <= j < |levels| ==> Complete(levels[j])
  {
    && k + |path| == |levels|
    && forall j :: 0 <= j < |path| ==> path[j] == Holder(levels, |levels| - 1 - j, key).id
  }

  // ------------------------------------------------------- the separator

  // In the parent the new separator is new, and its place is next to the child that split.
  lemma {:induction false} SeparatorSlot(pages: Pages, levels: seq<Level>, root: PageId, k: nat, pos: nat, q: nat,
                                         r: nat)
    requires Pending(pages, levels, root, k, pos) && ParentOf(pages, levels, k, pos, q, r)
    ensures var items, sep := pages[levels[k][q].id].items, levels[k - 1][pos].low;
            && r <= |items| && KeysRise(items)
            && (forall m :: 0 <= m < r ==> ItemKey(items[m]) < sep)
            && (forall m :: r <= m < |items| ==> sep < ItemKey(items[m]))
  {
    var p, low := pages[levels[k][q].id], levels[k][q].low;
    var kids, e := Children(p, low), levels[k - 1][pos];
    var a, b := Expand(pages, levels[k][..q]), Expand(pages, levels[k][q + 1..]);
    PendingCut(pages, levels, root, k, pos, q, r);
    RisingSlice(levels[k - 1], a, InsertAt(kids, r + 1, e), b);
    RisingWithout(kids, r + 1, e);
    ChildrenKeys(p, low);
    SeparatorPlace(levels[k - 1], a, kids, b, r, e);
    forall m | 0 <= m < |p.items|
      ensures m < r ==> ItemKey(p.items[m]) < e.low
      ensures r <= m ==> e.low < ItemKey(p.items[m])
    {
      assert kids[m + 1] == Entry(ItemKey(p.items[m]), InternalChild(p.items[m]));
    }
  }

  lemma {:induction false} RisingWithout(kids: Level, r: nat, e: Entry)
    requires r <= |kids| && Rising(InsertAt(kids, r, e))
    ensures Rising(kids)
  {
    var all := InsertAt(kids, r, e);
    forall i, j | 0 <= i < j < |kids| ensures kids[i].low < kids[j].low {
      assert kids[i] == all[if i < r then i else i + 1];
      assert kids[j] == all[if j < r then j else j + 1];
    }
  }

  method FindSeparator(pager: Pager, parent: PageId, sep: u64, ghost root: PageId, ghost t: Tree, ghost k: nat,
                       ghost pos: nat, ghost q: nat, ghost r: nat) returns (slot: Slot)
    requires Pending(pager.pages, t.levels, root, k, pos) && ParentOf(pager.pages, t.levels, k, pos, q, r)
    requires parent == t.levels[k][q].id && sep == t.levels[k - 1][pos].low
    ensures slot == Missing(r) && r <= |pager.pages[parent].items|
  {
    SeparatorSlot(pager.pages, t.levels, root, k, pos, q, r);
    slot := SlotSearch(pager.pages[parent].items, sep);
    ghost var items := pager.pages[parent].items;
    assert slot.at < |items| ==> ItemKey(items[slot.at]) == ItemKey(items[slot.at]);
    assert r < |items| ==> sep < ItemKey(items[r]);
  }

  // ------------------------------------------------------ splitting a node

  ghost predicate IsNode(p: Image, leftmost: PageId, items: seq<Item>) {
    NodeImage(p) && p.extra == leftmost && p.items == items
  }

  // A run of internal items short enough for one page.
  ghost predicate NodeItems(items: seq<Item>) {
    1 <= |items| <= 510 && forall i :: 0 <= i < |items| ==> |items[i]| == INTERNAL_ITEM
  }

  method FillNode(leftmost: PageId, items: seq<Item>) returns (r: Option<Image>)
    requires NodeItems(items)
    ensures r.Some? && IsNode(r.value, leftmost, items)
  {
    InternalTotal(items);
    r := FillPage(Internal, leftmost, items);
  }

  method DivideNode(pager: Pager, node: PageId, leftmost: PageId, left: seq<Item>, middle: PageId, right: seq<Item>)
    returns (r: Result<PageId, Fault>)
    requires pager.Valid() && node in pager.Used() && NodeItems(left) && NodeItems(right)
    modifies pager
    ensures pager.Valid()
    ensures r.Err? ==> r.error == NoPages && pager.pages == old(pager.pages)
    ensures r.Ok? ==>
            r.value !in old(pager.Used()) && r.value != NO_PAGE && pager.Used() == old(pager.Used()) + {r.value}
    ensures r.Ok? ==> node in pager.pages && IsNode(pager.pages[node], leftmost, left)
    ensures r.Ok? ==> r.value in pager.pages && IsNode(pager.pages[r.value], middle, right)
    ensures r.Ok? ==> OnlyChanged(old(pager.pages), pager.pages, {node, r.value})
  {
    var got := pager.AllocPage(Internal);
    if got.None? {
      return Err(NoPages);
    }
    var first := FillNode(leftmost, left);
    if first.None? {
      return Err(NodeHalfTooBig);
    }
    pager.WritePage(node, first.value);
    var second := FillNode(middle, right);
    if second.None? {
      return Err(NodeHalfTooBig);
    }
    pager.WritePage(got.value, second.value);
    return Ok(got.value);
  }

  // A full node with one more item, cut around one of its inner items.
  lemma {:induction false} HalvesAreNodes(old_: seq<Item>, index: nat, item: Item, middle: nat)
    requires |old_| == 510 && (forall i :: 0 <= i < |old_| ==> |old_[i]| == INTERNAL_ITEM)
    requires index <= 510 && |item| == INTERNAL_ITEM && 1 <= middle < 510
    ensures var items := InsertAt(old_, index, item);
            |items| == 511 && |items[middle]| == INTERNAL_ITEM && NodeItems(items[..middle])
              && NodeItems(items[middle + 1..])
  {
    var items := InsertAt(old_, index, item);
    forall i | 0 <= i < |items| ensures |items[i]| == INTERNAL_ITEM {
      assert items[i] == if i < index then old_[i] else if i == index then item else old_[i - 1];
    }
  }

  method SplitInternal(pager: Pager, node: PageId, index: nat, item: Item)
    returns (r: Result<(u64, PageId), Fault>, ghost mid: nat)
    requires pager.Valid() && node in pager.Used() && NodeImage(pager.pages[node]) && |pager.pages[node].items| == 510
    requires index <= 510 && |item| == INTERNAL_ITEM
    modifies pager
    ensures pager.Valid()
    ensures r.Err? ==> r.error == NoPages
    ensures var items := InsertAt(old(pager.pages)[node].items, index, item);
            r.Ok? ==>
              && CutNode(old(pager.pages), pager.pages, node, r.value.1, items, mid)
              && r.value.0 == ItemKey(items[mid])
    ensures r.Ok? ==>
            r.value.1 !in old(pager.Used()) && r.value.1 != NO_PAGE && pager.Used() == old(pager.Used()) + {r.value.1}
    ensures r.Ok? ==> OnlyChanged(old(pager.pages), pager.pages, {node, r.value.1})
    ensures r.Err? ==> pager.pages == old(pager.pages)
  {
    var p := pager.pages[node];
    var items := InsertAt(p.items, index, item);
    mid := 0;
    if |items| < 3 {
      return Err(NodeTooSmall), mid;
    }
    var middle := |items| / 2;
    mid := middle;
    HalvesAreNodes(p.items, index, item, middle);
    var promoted := items[middle];
    var divided := DivideNode(pager, node, p.extra, items[..middle], InternalChild(promoted), items[middle + 1..]);
    match divided
    case Err(e) => return Err(e), mid;
    case Ok(right) => return Ok((ItemKey(promoted), right)), mid;
  }

  // ------------------------------------------------------------ one step

  lemma {:induction false} PathEnd(levels: seq<Level>, k: nat, path: seq<PageId>, key: u64)
    requires forall j :: 0 <= j < |levels| ==> Complete(levels[j])
    requires RestOfPath(levels, k, path, key) && path != []
    ensures path[|path| - 1] == Holder(levels, k, key).id
  {
    var last := |path| - 1;
    assert |levels| - 1 - last == k;
    assert path[last] == Holder(levels, |levels| - 1 - last, key).id;
  }

  lemma {:induction false} ParentOnPath(pages: Pages, root: PageId, t: Tree, k: nat, pos: nat, path: seq<PageId>,
                                        key: u64, e: Entry)
    returns (q: nat, r: nat)
    requires Climbing(pages, root, t, k, pos, path, key, e) && path != []
    ensures ParentOf(pages, t.levels, k, pos, q, r) && q == Locate(t.levels[k], key)
    ensures path[|path| - 1] == t.levels[k][q].id && t.levels[k][q].id in Own(t)
    ensures t.levels[k][q].id in pages && NodeImage(pages[t.levels[k][q].id])
  {
    q, r := ParentFound(pages, t.levels, root, k, pos, key);
    PathEnd(t.levels, k, path, key);
    UniqueParts(t);
    NodeOwned(t.levels, k, q);
  }

  lemma {:induction false} ClimbsOn(levels: seq<Level>, k: nat, path: seq<PageId>, key: u64, q: nat, up: Entry)
    requires forall j :: 0 <= j < |levels| ==> Complete(levels[j])
    requires RestOfPath(levels, k, path, key) && path != [] && q == Locate(levels[k], key)
    requires Complete(InsertAt(levels[k], q + 1, up))
    ensures var levels' := levels[k := InsertAt(levels[k], q + 1, up)];
            && (forall j :: 0 <= j < |levels'| ==> Complete(levels'[j]))
            && RestOfPath(levels', k + 1, path[..|path| - 1], key)
            && levels'[k][q + 1] == up && RemoveAt(levels'[k], q + 1) == levels[k]
  {
    var levels' := levels[k := InsertAt(levels[k], q + 1, up)];
    forall j | 0 <= j < |path| - 1 ensures path[j] == Holder(levels', |levels'| - 1 - j, key).id {
      assert levels'[|levels| - 1 - j] == levels[|levels| - 1 - j];
    }
  }

  lemma {:induction false} StepUp(pages: Pages, after: Pages, root: PageId, t: Tree, k: nat, pos: nat,
                                  path: seq<PageId>, key: u64, e: Entry, q: nat, r: nat, mid: nat, fresh_: PageId)
    requires Climbing(pages, root, t, k, pos, path, key, e) && path != []
    requires ParentOf(pages, t.levels, k, pos, q, r) && q == Locate(t.levels[k], key)
    requires r <= |pages[t.levels[k][q].id].items|
    requires OnlyTreeNode(pages, after, t, k, q)
    requires var items := InsertAt(pages[t.levels[k][q].id].items, r, InternalItem(e.low, e.id));
             CutNode(pages, after, t.levels[k][q].id, fresh_, items, mid)
    requires fresh_ != NO_PAGE && fresh_ !in Own(t)
    ensures var items := InsertAt(pages[t.levels[k][q].id].items, r, InternalItem(e.low, e.id));
            var up := Entry(ItemKey(items[mid]), fresh_);
            var t' := RaiseTree(t, k, q, up);
            && Climbing(after, root, t', k + 1, q + 1, path[..|path| - 1], key, up)
            && Owned(t') == Owned(t) + {fresh_}
  {
    var items := InsertAt(pages[t.levels[k][q].id].items, r, InternalItem(e.low, e.id));
    var up := Entry(ItemKey(items[mid]), fresh_);
    StepSplit(pages, after, root, t, k, pos, q, r, items, mid, fresh_);
    OwnedPlus(t, RaiseTree(t, k, q, up), fresh_);
    assert RaiseTree(t, k, q, up).levels[k] == InsertAt(t.levels[k], q + 1, up);
    ClimbsOn(t.levels, k, path, key, q, up);
  }

  method PushItem(pager: Pager, node: PageId, index: nat, item: Item) returns (done: bool)
    requires pager.Valid() && node in pager.Used() && NodeImage(pager.pages[node])
    requires index <= |pager.pages[node].items| && |item| == INTERNAL_ITEM
    modifies pager
    ensures pager.Valid() && pager.Used() == old(pager.Used())
    ensures done ==>
            node in pager.pages && IsNode(pager.pages[node], old(pager.pages)[node].extra,
              InsertAt(old(pager.pages)[node].items, index, item))
    ensures done ==> OnlyChanged(old(pager.pages), pager.pages, {node})
    ensures !done ==> pager.pages == old(pager.pages) && |pager.pages[node].items| == 510
  {
    NodeCapacity(pager.pages[node]);
    InsertKeepsLayout(pager.pages[node], index, item);
    var inserted := Insert(pager.pages[node], index, item);
    done := inserted.Some?;
    if done {
      pager.WritePage(node, inserted.value);
    }
  }

  // Writing one node of the tree, and perhaps a new page, touches nothing else.
  lemma {:induction false} NodeFrame(before: Pages, after: Pages, used: set<PageId>, t: Tree, k: nat, q: nat,
                                     fresh_: PageId)
    requires k < |t.levels| && q < |t.levels[k]| && t.levels[k][q].id in Own(t) && Owned(t) <= used
    requires fresh_ !in used || fresh_ == t.levels[k][q].id
    requires OnlyChanged(before, after, {t.levels[k][q].id, fresh_})
    ensures OnlyTreeNode(before, after, t, k, q)
    ensures Agree(before, after, used - Owned(t))
    ensures fresh_ == t.levels[k][q].id || fresh_ !in Own(t)
  {
    assert fresh_ in Own(t) ==> fresh_ in Owned(t);
  }

  // One parent takes the pending entry, or splits and passes one on.
  method Absorb(pager: Pager, parent: PageId, sep: u64, right: PageId, ghost root: PageId, ghost t: Tree,
                ghost k: nat, ghost pos: nat, ghost path: seq<PageId>, ghost key: u64)
    returns (r: Result<Option<(u64, PageId)>, Fault>, ghost t': Tree, ghost pos': nat)
    requires pager.Valid() && Owned(t) <= pager.Used()
    requires Climbing(pager.pages, root, t, k, pos, path, key, Entry(sep, right)) && path != []
             && parent == path[|path| - 1]
    modifies pager
    ensures pager.Valid() && t'.leaves == t.leaves
    ensures r.Err? ==> r.error == NoPages
    ensures r == Ok(None) ==> t' == t && Inv(pager.pages, root, t) && pager.Used() == old(pager.Used())
    ensures r.Ok? && r.value.Some? ==>
              var up := r.value.value;
              && Climbing(pager.pages, root, t', k + 1, pos', path[..|path| - 1], key, Entry(up.0, up.1))
              && Owned(t') == Owned(t) + {up.1} && up.1 !in old(pager.Used())
                && pager.Used() == old(pager.Used()) + {up.1}
    ensures Agree(old(pager.pages), pager.pages, old(pager.Used()) - Owned(t))
  {
    t', pos' := t, 0;
    ghost var before, used := pager.pages, pager.Used();
    ghost var q, m := ParentOnPath(pager.pages, root, t, k, pos, path, key, Entry(sep, right));
    var slot := FindSeparator(pager, parent, sep, root, t, k, pos, q, m);
    if slot.Found? {
      return Err(DuplicateSeparator), t', pos';
    }
    var item := InternalItem(sep, right);
    var inserted := PushItem(pager, parent, slot.at, item);
    if inserted {
      NodeFrame(before, pager.pages, used, t, k, q, parent);
      StepClosed(before, pager.pages, root, t, k, pos, q, m);
      return Ok(None), t, 0;
    }
    var split, mid := SplitInternal(pager, parent, slot.at, item);
    match split
    case Err(e) =>
      return Err(e), t, 0;
    case Ok(up) =>
      NodeFrame(before, pager.pages, used, t, k, q, up.1);
      StepUp(before, pager.pages, root, t, k, pos, path, key, Entry(sep, right), q, m, mid, up.1);
      t' := RaiseTree(t, k, q, Entry(up.0, up.1));
      pos' := q + 1;
      return Ok(Some(up)), t', pos';
  }

  // ------------------------------------------------------------ the climb

  // `t'` is `t` with more pages, all newly allocated.
  ghost predicate Grown(t: Tree, t': Tree, used: set<PageId>, used': set<PageId>) {
    && t'.leaves == t.leaves
    && Owned(t) <= Owned(t') && (Owned(t') - Owned(t)) !! used
    && used' == used + Owned(t')
  }

  lemma {:induction false} GrownMore(t: Tree, t1: Tree, t2: Tree, used: set<PageId>, used1: set<PageId>,
                                     used2: set<PageId>, p: PageId)
    requires Grown(t, t1, used, used1)
    requires t2.leaves == t1.leaves && Owned(t2) == Owned(t1) + {p} && p !in used1 && used2 == used1 + {p}
    ensures Grown(t, t2, used, used2)
  {
  }

  lemma {:induction false} AgreeOn(pages: Pages, mid: Pages, after: Pages, t: Tree, t': Tree, used: set<PageId>,
                                   used': set<PageId>)
    requires Agree(pages, mid, used - Owned(t)) && Grown(t, t', used, used')
    requires Agree(mid, after, used' - Owned(t'))
    ensures Agree(pages, after, used - Owned(t))
  {
    assert used - Owned(t) <= used' - Owned(t');
  }

  method NewRootPage(pager: Pager, root: PageId, item: Item) returns (r: Result<PageId, Fault>)
    requires pager.Valid() && |item| == INTERNAL_ITEM
    modifies pager
    ensures pager.Valid()
    ensures r.Err? ==> r.error == NoPages
    ensures r.Ok? ==>
            r.value !in old(pager.Used()) && r.value != NO_PAGE && pager.Used() == old(pager.Used()) + {r.value}
    ensures r.Ok? ==> r.value in pager.pages && IsNode(pager.pages[r.value], root, [item])
    ensures Agree(old(pager.pages), pager.pages, old(pager.Used()))
  {
    var got := pager.AllocPage(Internal);
    if got.None? {
      return Err(NoPages);
    }
    var page := SetExtra(pager.pages[got.value], root);
    InsertKeepsLayout(page, 0, item);
    var inserted := Insert(page, 0, item);
    pager.WritePage(got.value, inserted.value);
    return Ok(got.value);
  }

  lemma {:induction false} RootDone(pages: Pages, after: Pages, used: set<PageId>, root: PageId, t: Tree, pos: nat,
                                    e: Entry, newRoot: PageId)
    requires Growing(pages, root, t, |t.levels|, pos) && t.levels[|t.levels| - 1][pos] == e
    requires Owned(t) <= used && newRoot !in used && newRoot != NO_PAGE
    requires newRoot in after && IsNode(after[newRoot], root, [InternalItem(e.low, e.id)])
    requires Agree(pages, after, used)
    ensures Inv(after, newRoot, CrownTree(t, newRoot)) && Owned(CrownTree(t, newRoot)) == Owned(t) + {newRoot}
  {
    assert newRoot in Own(t) ==> newRoot in Owned(t);
    forall p | p in Own(t) && p in pages ensures p in after && after[p] == pages[p] {
      assert p in Owned(t);
    }
    StepRoot(pages, after, root, t, pos, newRoot);
    OwnedPlus(t, CrownTree(t, newRoot), newRoot);
  }

  // A fresh root over both halves of the old one.
  method GrowRoot(pager: Pager, root: PageId, sep: u64, right: PageId, ghost t: Tree, ghost pos: nat)
    returns (r: Result<PageId, Fault>, ghost t': Tree)
    requires pager.Valid() && Owned(t) <= pager.Used()
    requires Growing(pager.pages, root, t, |t.levels|, pos) && t.levels[|t.levels| - 1][pos] == Entry(sep, right)
    modifies pager
    ensures pager.Valid()
    ensures r.Err? ==> r.error == NoPages
    ensures r.Ok? ==> Holds(pager, r.value, t') && t'.leaves == t.leaves && Owned(t') == Owned(t) + {r.value}
    ensures r.Ok? ==> r.value !in old(pager.Used()) && pager.Used() == old(pager.Used()) + {r.value}
    ensures Agree(old(pager.pages), pager.pages, old(pager.Used()))
  {
    ghost var before, used := pager.pages, pager.Used();
    t' := t;
    r := NewRootPage(pager, root, InternalItem(sep, right));
    if r.Ok? {
      RootDone(before, pager.pages, used, root, t, pos, Entry(sep, right), r.value);
      t' := CrownTree(t, r.value);
    }
  }

  // Pushes a pending entry up the path; the root changes only if the old one had to split.
  method Propagate(pager: Pager, root: PageId, path0: seq<PageId>, sep0: u64, right0: PageId, ghost t: Tree,
                   ghost pos0: nat, ghost key: u64)
    returns (r: Result<PageId, Fault>, ghost t': Tree)
    requires pager.Valid() && Owned(t) <= pager.Used()
    requires Climbing(pager.pages, root, t, 1, pos0, path0, key, Entry(sep0, right0))
    modifies pager
    ensures pager.Valid()
    ensures r.Err? ==> r.error == NoPages
    ensures r.Ok? ==> Holds(pager, r.value, t') && Grown(t, t', old(pager.Used()), pager.Used())
    ensures Agree(old(pager.pages), pager.pages, old(pager.Used()) - Owned(t))
  {
    var path, sep, right := path0, sep0, right0;
    ghost var k, pos := 1, pos0;
    ghost var before, used := pager.pages, pager.Used();
    t' := t;
    while path != []
      invariant pager.Valid() && Owned(t') <= pager.Used()
      invariant Climbing(pager.pages, root, t', k, pos, path, key, Entry(sep, right))
      invariant Grown(t, t', used, pager.Used())
      invariant Agree(before, pager.pages, used - Owned(t))
      decreases |path|
    {
      ghost var mid, used1, t1 := pager.pages, pager.Used(), t';
      var parent := path[|path| - 1];
      var absorbed, next, pos' := Absorb(pager, parent, sep, right, root, t', k, pos, path, key);
      AgreeOn(before, mid, pager.pages, t, t1, used, used1);
      match absorbed
      case Err(e) =>
        return Err(e), t';
      case Ok(None) =>
        return Ok(root), t';
      case Ok(Some(up)) =>
        GrownMore(t, t1, next, used, used1, pager.Used(), up.1);
        path := path[..|path| - 1];
        sep, right := up.0, up.1;
        t', k, pos := next, k + 1, pos';
    }
    ghost var mid, used1, t1 := pager.pages, pager.Used(), t';
    r, t' := GrowRoot(pager, root, sep, right, t', pos);
    AgreeOn(before, mid, pager.pages, t, t1, used, used1);
    if r.Ok? {
      GrownMore(t, t1, t', used, used1, pager.Used(), r.value);
    }
  }
}
