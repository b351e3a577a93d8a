// Whole runs: any sequence of upserts and removes on a fresh tree behaves as a finite map.
module BTreeRun {
  import opened Bytes
  import opened PageImage
  import opened Wrappers
  import opened Paging
  import opened BTreeModel
  import opened BTreeShape
  import opened BTreeInvariant
  import opened BTreeOverflow
  import opened BTreeRead
  import opened BTreeWrite
  import opened BTreeUpsert

  datatype Op = Put(key: u64, payload: seq<byte>) | Delete(key: u64)

  function Apply(m: map<nat, seq<byte>>, op: Op): map<nat, seq<byte>> {
    match op
    case Put(key, payload) => m[key := payload]
    case Delete(key) => m - {key}
  }

  function ApplyAll(ops: seq<Op>): map<nat, seq<byte>> {
    if ops == [] then map[] else Apply(ApplyAll(ops[..|ops| - 1]), ops[|ops| - 1])
  }

  // The tree is the only newcomer: its pages are new, and all other pages are as before.
  ghost predicate Newcomer(pager: Pager, t: Tree, before: Pages, used: set<PageId>)
    reads pager
  {
    && Owned(t) !! used && pager.Used() == used + Owned(t)
    && Agree(before, pager.pages, used)
  }

  lemma {:induction false} StillNewcomer(pager: Pager, t: Tree, t': Tree, before: Pages, mid: Pages,
                                         used: set<PageId>, used1: set<PageId>)
    requires Owned(t) !! used && used1 == used + Owned(t) && Agree(before, mid, used)
    requires Exchange(t, t', used1, pager.Used(), {}) && Agree(mid, pager.pages, used1 - Owned(t))
    ensures Newcomer(pager, t', before, used)
  {
    assert used1 - Owned(t) == used;
    forall p | p in Owned(t') ensures p !in used {
      assert p in used ==> p in Owned(t') * (used1 - Owned(t));
    }
  }

  method Step(pager: Pager, root: PageId, op: Op, ghost t: Tree, ghost before: Pages, ghost used: set<PageId>)
    returns (r: Result<PageId, Fault>, ghost t': Tree)
    requires Holds(pager, root, t) && Newcomer(pager, t, before, used)
    modifies pager
    ensures pager.Valid()
    ensures r.Ok? ==>
            Holds(pager, r.value, t') && Newcomer(pager, t', before, used) && Contents(t') == Apply(Contents(t), op)
    ensures r.Err? ==> r.error == NoPages || r.error == SingleEntry
    ensures op.Delete? ==> r == Ok(root)
  {
    ghost var mid, used1 := pager.pages, pager.Used();
    match op
    case Put(key, payload) =>
      r, t' := Upsert(pager, root, key, payload, t);
      if r.Ok? {
        StillNewcomer(pager, t, t', before, mid, used, used1);
      }
    case Delete(key) =>
      var removed;
      removed, t' := BTreeWrite.Remove(pager, root, key, t);
      StillNewcomer(pager, t, t', before, mid, used, used1);
      r := Ok(root);
  }

  // Any run that gets through leaves exactly the map it describes, in pages of its own.
  method RunAll(pager: Pager, ops: seq<Op>) returns (r: Result<PageId, Fault>, ghost t: Tree)
    requires pager.Valid()
    modifies pager
    ensures pager.Valid()
    ensures r.Ok? ==> Holds(pager, r.value, t) && Contents(t) == ApplyAll(ops)
    ensures r.Ok? ==> Newcomer(pager, t, old(pager.pages), old(pager.Used()))
    ensures r.Err? ==> r.error == NoPages || r.error == SingleEntry
  {
    ghost var before, used := pager.pages, pager.Used();
    r, t := Create(pager);
    if r.Err? {
      return;
    }
    for i := 0 to |ops|
      invariant r.Ok? && Holds(pager, r.value, t) && Newcomer(pager, t, before, used)
      invariant Contents(t) == ApplyAll(ops[..i])
    {
      assert ops[..i + 1][..i] == ops[..i];
      r, t := Step(pager, r.value, ops[i], t, before, used);
      if r.Err? {
        return;
      }
    }
    assert ops[..|ops|] == ops;
  }

  // ------------------------------------------------------- a jammed leaf

  // A tree of one leaf with the keys from `from` to `to`, its free bytes ending at `end`.
  ghost predicate Lone(pager: Pager, root: PageId, t: Tree, from: nat, to: nat, end: nat)
    reads pager
  {
    && Holds(pager, root, t) && |t.levels| == 1 && from <= to
    && root in pager.pages && pager.pages[root].Slotted?
    && pager.pages[root].freeEnd == end && |pager.pages[root].items| == to - from
    && forall k: nat :: k in Contents(t) <==> from <= k < to
  }

  lemma {:induction false} OneLeaf(pages: Pages, root: PageId, t: Tree, key: u64)
    requires Inv(pages, root, t) && |t.levels| == 1
    ensures Locate(t.levels[0], key) == 0 && Holder(t.levels, 0, key).id == root
    ensures |t.leaves| == 1 && t.leaves[0].id == root && LeafAt(pages, t.leaves, 0)
  {
    LocateIs(t.levels[0], key, 0);
    assert t.levels[0][0] == LeafLevel(t.leaves)[0];
  }

  method PutNext(pager: Pager, root: PageId, key: u64, n: nat, ghost t: Tree, ghost end: nat, ghost before: Pages,
                 ghost used: set<PageId>)
    returns (ghost t': Tree)
    requires Lone(pager, root, t, 0, key, end) && n <= MAX_INLINE && Newcomer(pager, t, before, used)
    requires HEADER_SIZE + SLOT_SIZE * (key + 1) + LEAF_HEADER + n <= end
    modifies pager
    ensures Lone(pager, root, t', 0, key + 1, end - (LEAF_HEADER + n)) && Newcomer(pager, t', before, used)
  {
    ghost var mid, used1 := pager.pages, pager.Used();
    OneLeaf(pager.pages, root, t, key);
    var r;
    r, t' := Upsert(pager, root, key, Zeros(n), t);
    StillNewcomer(pager, t, t', before, mid, used, used1);
  }

  lemma {:induction false} KeysDropped(m: map<nat, seq<byte>>, m': map<nat, seq<byte>>, key: nat, to: nat)
    requires m' == m - {key} && key < to && forall k: nat :: k in m <==> key <= k < to
    ensures key in m && forall k: nat :: k in m' <==> key + 1 <= k < to
  {
  }

  method DropNext(pager: Pager, root: PageId, key: u64, ghost t: Tree, ghost to: nat, ghost end: nat,
                  ghost before: Pages, ghost used: set<PageId>)
    returns (ghost t': Tree)
    requires Lone(pager, root, t, key, to, end) && key < to && Newcomer(pager, t, before, used)
    modifies pager
    ensures Lone(pager, root, t', key + 1, to, end) && Newcomer(pager, t', before, used)
  {
    ghost var mid, used1 := pager.pages, pager.Used();
    OneLeaf(pager.pages, root, t, key);
    var r;
    r, t' := BTreeWrite.Remove(pager, root, key, t);
    KeysDropped(Contents(t), Contents(t'), key, to);
    StillNewcomer(pager, t, t', before, mid, used, used1);
  }

  // Four of the largest inline payloads and one of 103 bytes fill a page to the last few bytes.
  const FILL: seq<nat> := [MAX_INLINE, MAX_INLINE, MAX_INLINE, MAX_INLINE, 103]

  // The bytes left free below the items once the first `n` are in.
  function EndAfter(n: nat): int
    requires n <= 5
  {
    if n <= 4 then PAGE_SIZE - n * (LEAF_HEADER + MAX_INLINE) else 44
  }

  lemma {:induction false} FillFits(k: nat)
    requires k < 5
    ensures FILL[k] <= MAX_INLINE && EndAfter(k + 1) == EndAfter(k) - (LEAF_HEADER + FILL[k])
    ensures HEADER_SIZE + SLOT_SIZE * (k + 1) + LEAF_HEADER + FILL[k] <= EndAfter(k)
  {
  }

  method Fill(pager: Pager, root: PageId, ghost t0: Tree, ghost before: Pages, ghost used: set<PageId>)
    returns (ghost t: Tree)
    requires Lone(pager, root, t0, 0, 0, PAGE_SIZE) && Newcomer(pager, t0, before, used)
    modifies pager
    ensures Lone(pager, root, t, 0, 5, EndAfter(5)) && Newcomer(pager, t, before, used)
  {
    t := t0;
    for k := 0 to 5
      invariant Lone(pager, root, t, 0, k, EndAfter(k)) && Newcomer(pager, t, before, used)
    {
      FillFits(k);
      t := PutNext(pager, root, k, FILL[k], t, EndAfter(k), before, used);
    }
  }

  method Empty(pager: Pager, root: PageId, ghost t0: Tree, ghost before: Pages, ghost used: set<PageId>)
    returns (ghost t: Tree)
    requires Lone(pager, root, t0, 0, 5, EndAfter(5)) && Newcomer(pager, t0, before, used)
    modifies pager
    ensures Lone(pager, root, t, 5, 5, EndAfter(5)) && Newcomer(pager, t, before, used)
  {
    t := t0;
    for k := 0 to 5
      invariant Lone(pager, root, t, k, 5, EndAfter(5)) && Newcomer(pager, t, before, used)
    {
      t := DropNext(pager, root, k, t, 5, EndAfter(5), before, used);
    }
  }

  // A new tree is filled, emptied, and then refuses every payload of eight bytes or more: it holds
  // nothing and the page is taken all the same. A payload that needs overflow pages loses them.
  method FillAndEmpty(pager: Pager, payload: seq<byte>)
    returns (created: Result<PageId, Fault>, r: Result<PageId, Fault>, ghost t: Tree)
    requires pager.Valid() && |payload| >= 8
    modifies pager
    ensures pager.Valid() && r.Err? && (created.Err? ==> r.error == NoPages)
    ensures created.Ok? ==> Holds(pager, created.value, t) && Contents(t) == map[]
    ensures created.Ok? && |payload| <= MAX_INLINE ==>
            r.error == SingleEntry && Newcomer(pager, t, old(pager.pages), old(pager.Used()))
    ensures created.Ok? && r.error == SingleEntry && |payload| > MAX_INLINE ==>
            old(pager.Used()) + Owned(t) < pager.Used()
  {
    ghost var before, used := pager.pages, pager.Used();
    created, t := Create(pager);
    if created.Err? {
      return created, created, t;
    }
    assert Newcomer(pager, t, before, used);
    t := Fill(pager, created.value, t, before, used);
    t := Empty(pager, created.value, t, before, used);
    r, t := PutRefused(pager, created.value, payload, t, before, used);
  }

  method PutRefused(pager: Pager, root: PageId, payload: seq<byte>, ghost t: Tree, ghost before: Pages,
                    ghost used: set<PageId>)
    returns (r: Result<PageId, Fault>, ghost t': Tree)
    requires Lone(pager, root, t, 5, 5, EndAfter(5)) && |payload| >= 8 && Newcomer(pager, t, before, used)
    modifies pager
    ensures pager.Valid() && r.Err? && Holds(pager, root, t') && Contents(t') == map[]
    ensures |payload| <= MAX_INLINE ==> r.error == SingleEntry && Newcomer(pager, t', before, used)
    ensures r.error == SingleEntry && |payload| > MAX_INLINE ==> used + Owned(t') < pager.Used()
  {
    OneLeaf(pager.pages, root, t, 0);
    assert t.leaves[0].cells == [];
    assert Jammed(pager.pages, t, 0, |payload|);
    r, t' := Upsert(pager, root, 0, payload, t);
  }
}
