// Freeing a whole tree.
module BTreeDestroy {
  import opened PageImage
  import opened Wrappers
  import opened Sequences
  import opened Paging
  import opened BTreeModel
  import opened BTreeShape
  import opened BTreeInvariant
  import opened BTreeOverflow
  import opened BTreeUpdate
  import opened BTreeWrite
  import opened BTreeSubtree

  // ------------------------------------------------------------- one leaf

  ghost function ChainPages(cells: seq<Cell>): set<PageId> {
    set p | p in ChainsOf(cells)
  }

  lemma {:induction false} ChainPagesStep(cells: seq<Cell>, i: nat)
    requires Unique(ChainsOf(cells)) && i < |cells|
    ensures ChainPages(cells[..i + 1]) == ChainPages(cells[..i]) + ChainSet(cells[i].chain)
    ensures ChainPages(cells[..i]) !! ChainSet(cells[i].chain)
    ensures ChainSet(cells[i].chain) <= ChainPages(cells)
  {
    ChainsAround(cells, i);
    assert cells[..i + 1] == cells[..i] + [cells[i]];
    ChainsAppend(cells[..i], [cells[i]]);
    ChainsOne(cells[i]);
    forall p | p in ChainPages(cells[..i]) ensures p !in ChainSet(cells[i].chain) {
      assert ChainsOf(cells)[p] == ChainsOf(cells[..i])[p] + multiset(cells[i].chain)[p] + ChainsOf(cells[i + 1..])[p];
    }
    forall p ensures p in ChainPages(cells[..i + 1]) <==> p in ChainPages(cells[..i]) || p in ChainSet(cells[i].chain) {
      assert ChainsOf(cells[..i + 1])[p] == ChainsOf(cells[..i])[p] + multiset(cells[i].chain)[p];
    }
    forall p | p in ChainSet(cells[i].chain) ensures p in ChainPages(cells) {
      CellChainOwned(cells, i, p);
    }
  }

  method ReleaseAll(pager: Pager, items: seq<Item>, ghost cells: seq<Cell>)
    requires pager.Valid() && items == CellItems(cells)
    requires forall m :: 0 <= m < |cells| ==> CellOk(pager.pages, cells[m])
    requires Unique(ChainsOf(cells)) && ChainPages(cells) <= pager.Used()
    modifies pager
    ensures pager.Valid()
    ensures pager.Used() == old(pager.Used()) - ChainPages(cells)
    ensures OnlyChanged(old(pager.pages), pager.pages, ChainPages(cells))
  {
    ghost var before, used := pager.pages, pager.Used();
    for i := 0 to |items|
      invariant pager.Valid()
      invariant pager.Used() == used - ChainPages(cells[..i])
      invariant OnlyChanged(before, pager.pages, ChainPages(cells[..i]))
    {
      ghost var mid := pager.pages;
      ChainPagesStep(cells, i);
      ChainHasNoRepeats(cells, i);
      CellUntouched(before, mid, cells, i);
      ReleaseItem(pager, items[i], cells[i]);
      ChangesAdd(before, mid, pager.pages, ChainPages(cells[..i]), ChainSet(cells[i].chain));
    }
    assert cells[..|items|] == cells;
  }

  lemma {:induction false} CellUntouched(before: Pages, mid: Pages, cells: seq<Cell>, i: nat)
    requires i < |cells| && CellOk(before, cells[i])
    requires ChainPages(cells[..i]) !! ChainSet(cells[i].chain)
    requires OnlyChanged(before, mid, ChainPages(cells[..i]))
    ensures CellOk(mid, cells[i])
  {
    CellFrame(before, mid, cells[i]);
  }

  lemma {:induction false} ChangesAdd(a: Pages, b: Pages, c: Pages, x: set<PageId>, y: set<PageId>)
    requires OnlyChanged(a, b, x) && OnlyChanged(b, c, y)
    ensures OnlyChanged(a, c, x + y)
  {
  }

  // -------------------------------------------------------- the traversal

  // A node by level and position.
  datatype Spot = Spot(k: nat, q: nat)

  ghost predicate Marks(t: Tree, spots: seq<Spot>, stack: seq<PageId>) {
    && |spots| == |stack|
    && forall i :: 0 <= i < |spots| ==> SpotOf(t, spots[i], stack[i])
  }

  ghost predicate SpotOf(t: Tree, s: Spot, id: PageId) {
    s.k < |t.levels| && s.q < |t.levels[s.k]| && t.levels[s.k][s.q].id == id
  }

  ghost function StackOwn(pages: Pages, t: Tree, spots: seq<Spot>, p: PageId): nat {
    if spots == [] then 0
    else var last := spots[|spots| - 1];
      StackOwn(pages, t, spots[..|spots| - 1], p) + SubOwn(pages, t, last.k, last.q, p)
  }

  // The subtrees on the stack are disjoint, and `left` is what they hold.
  ghost predicate Covers(pages: Pages, t: Tree, spots: seq<Spot>, left: set<PageId>) {
    forall p: PageId :: StackOwn(pages, t, spots, p) == if p in left then 1 else 0
  }

  ghost function Run(k: nat, s: nat, m: nat): (spots: seq<Spot>)
    ensures |spots| == m
  {
    seq(m, j requires 0 <= j < m => Spot(k, s + j))
  }

  lemma {:induction false} StackTop(pages: Pages, t: Tree, spots: seq<Spot>, s: Spot, p: PageId)
    ensures StackOwn(pages, t, spots + [s], p) == StackOwn(pages, t, spots, p) + SubOwn(pages, t, s.k, s.q, p)
  {
    assert (spots + [s])[..|spots + [s]| - 1] == spots;
  }

  lemma {:induction false} RunSnoc(spots: seq<Spot>, k: nat, s: nat, m: nat)
    requires m > 0
    ensures spots + Run(k, s, m) == (spots + Run(k, s, m - 1)) + [Spot(k, s + m - 1)]
  {
  }

  lemma {:induction false} RangeLast(pages: Pages, t: Tree, k: nat, a: nat, b: nat, p: PageId)
    requires a < b
    ensures RangeOwn(pages, t, k, a, b, p) == RangeOwn(pages, t, k, a, b - 1, p) + SubOwn(pages, t, k, b - 1, p)
  {
  }

  lemma {:induction false} StackRun(pages: Pages, t: Tree, spots: seq<Spot>, k: nat, s: nat, m: nat, p: PageId)
    ensures StackOwn(pages, t, spots + Run(k, s, m), p) == StackOwn(pages, t, spots, p)
            + RangeOwn(pages, t, k, s, s + m, p)
  {
    if m == 0 {
      assert spots + Run(k, s, 0) == spots;
    } else {
      StackRun(pages, t, spots, k, s, m - 1, p);
      RangeLast(pages, t, k, s, s + m, p);
      RunSnoc(spots, k, s, m);
      StackTop(pages, t, spots + Run(k, s, m - 1), Spot(k, s + m - 1), p);
    }
  }

  lemma {:induction false} StartCovers(pages: Pages, root: PageId, t: Tree)
    requires Inv(pages, root, t)
    ensures Covers(pages, t, [Spot(|t.levels| - 1, 0)], Owned(t))
    ensures Marks(t, [Spot(|t.levels| - 1, 0)], [root])
  {
    var spots := [Spot(|t.levels| - 1, 0)];
    forall p: PageId ensures StackOwn(pages, t, spots, p) == if p in Owned(t) then 1 else 0 {
      WholeTree(pages, root, t, p);
      assert spots[..|spots| - 1] == [];
    }
  }

  // An internal node gives way to its children.
  lemma {:induction false} NodePopped(pages: Pages, t: Tree, spots: seq<Spot>, k: nat, q: nat, left: set<PageId>)
    requires 1 <= k < |t.levels| && q < |t.levels[k]|
    requires Covers(pages, t, spots + [Spot(k, q)], left)
    ensures var s, e := Start(pages, t.levels[k], q), Start(pages, t.levels[k], q + 1);
            s <= e && Covers(pages, t, spots + Run(k - 1, s, e - s), left - {t.levels[k][q].id})
    ensures t.levels[k][q].id in left
  {
    var s, e := Start(pages, t.levels[k], q), Start(pages, t.levels[k], q + 1);
    var id := t.levels[k][q].id;
    forall p: PageId
      ensures StackOwn(pages, t, spots + Run(k - 1, s, e - s), p) == if p in left - {id} then 1 else 0
      ensures p == id ==> p in left
    {
      StackTop(pages, t, spots, Spot(k, q), p);
      StackRun(pages, t, spots, k - 1, s, e - s, p);
    }
  }

  // A leaf goes, with its chains.
  lemma {:induction false} LeafPopped(pages: Pages, t: Tree, spots: seq<Spot>, q: nat, left: set<PageId>)
    requires |t.levels| >= 1 && |t.levels[0]| == |t.leaves| && q < |t.leaves|
    requires Covers(pages, t, spots + [Spot(0, q)], left)
    ensures var id, chains := t.levels[0][q].id, ChainPages(t.leaves[q].cells);
            Covers(pages, t, spots, left - chains - {id}) && id in left && chains <= left && id !in chains
  {
    var id, chains := t.levels[0][q].id, ChainPages(t.leaves[q].cells);
    forall p: PageId
      ensures StackOwn(pages, t, spots, p) == if p in left - chains - {id} then 1 else 0
      ensures p in chains ==> p in left && p != id
      ensures p == id ==> p in left
    {
      StackTop(pages, t, spots, Spot(0, q), p);
    }
  }

  lemma {:induction false} NothingLeft(pages: Pages, t: Tree, left: set<PageId>)
    requires Covers(pages, t, [], left)
    ensures left == {}
  {
    forall p: PageId ensures p !in left {
      assert StackOwn(pages, t, [], p) == 0;
    }
  }

  // What the page at a spot is.
  lemma {:induction false} SpotPage(pages: Pages, root: PageId, t: Tree, s: Spot, id: PageId)
    requires Inv(pages, root, t) && SpotOf(t, s, id)
    ensures id in pages && pages[id].Slotted?
    ensures s.k == 0 ==>
            pages[id].kind.Leaf? && LeafAt(pages, t.leaves, s.q) && |t.leaves| == |t.levels[0]|
              && t.leaves[s.q].id == id
    ensures s.k > 0 ==> NodeImage(pages[id]) && LinkedAt(pages, t.levels, s.k)
  {
    if s.k == 0 {
      assert t.levels[0][s.q] == LeafLevel(t.leaves)[s.q];
      assert LeafAt(pages, t.leaves, s.q);
    } else {
      assert LinkedAt(pages, t.levels, s.k);
    }
  }

  // The state of a traversal: what is on the stack is intact, everything else is free.
  ghost predicate Traversing(pager: Pager, before: Pages, used: set<PageId>, t: Tree, spots: seq<Spot>,
                             stack: seq<PageId>, left: set<PageId>)
    reads pager
  {
    && pager.Valid()
    && Marks(t, spots, stack) && Covers(before, t, spots, left)
    && left <= Owned(t) <= used
    && pager.Used() == used - (Owned(t) - left)
    && Agree(before, pager.pages, pager.Used())
  }

  method ChildIds(p: Image) returns (c: seq<PageId>)
    requires NodeImage(p)
    ensures |c| == |p.items| + 1 && forall j :: 0 <= j < |c| ==> c[j] == Children(p, 0)[j].id
  {
    c := [p.extra];
    for i := 0 to |p.items|
      invariant |c| == i + 1
      invariant forall j :: 0 <= j < |c| ==> c[j] == Children(p, 0)[j].id
    {
      c := c + [InternalChild(p.items[i])];
    }
  }

  // The ids a node lists are the spots of its run.
  lemma {:induction false} RunMarks(pages: Pages, t: Tree, spots: seq<Spot>, stack: seq<PageId>, k: nat, q: nat,
                                    c: seq<PageId>)
    requires Marks(t, spots, stack) && 1 <= k < |t.levels| && q < |t.levels[k]| && LinkedAt(pages, t.levels, k)
    requires t.levels[k][q].id in pages && NodeImage(pages[t.levels[k][q].id])
    requires |c| == |pages[t.levels[k][q].id].items| + 1
    requires forall j :: 0 <= j < |c| ==> c[j] == Children(pages[t.levels[k][q].id], 0)[j].id
    ensures var s, e := Start(pages, t.levels[k], q), Start(pages, t.levels[k], q + 1);
            s <= e && Marks(t, spots + Run(k - 1, s, e - s), stack + c)
  {
    ChildRun(pages, t.levels[k], t.levels[k - 1], q);
    var s, e := Start(pages, t.levels[k], q), Start(pages, t.levels[k], q + 1);
    var p, low := pages[t.levels[k][q].id], t.levels[k][q].low;
    forall j | 0 <= j < |c| ensures SpotOf(t, Run(k - 1, s, e - s)[j], c[j]) {
      assert t.levels[k - 1][s + j] == Children(p, low)[j];
      assert Children(p, low)[j].id == Children(p, 0)[j].id;
    }
  }

  lemma {:induction false} PrefixMarks(t: Tree, spots: seq<Spot>, stack: seq<PageId>, s: Spot, id: PageId)
    requires Marks(t, spots + [s], stack + [id])
    ensures Marks(t, spots, stack) && SpotOf(t, s, id)
  {
    forall i | 0 <= i < |spots| ensures SpotOf(t, spots[i], stack[i]) {
      assert (spots + [s])[i] == spots[i] && (stack + [id])[i] == stack[i];
    }
    assert (spots + [s])[|spots|] == s && (stack + [id])[|stack|] == id;
  }

  // One internal node replaced on the stack by its children.
  lemma {:induction false} NodeStep(before: Pages, t: Tree, spots: seq<Spot>, stack: seq<PageId>, s: Spot, id: PageId,
                                    left: set<PageId>, c: seq<PageId>) returns (spots': seq<Spot>)
    requires SpotOf(t, s, id) && s.k > 0 && LinkedAt(before, t.levels, s.k)
    requires Marks(t, spots, stack) && Covers(before, t, spots + [s], left)
    requires id in before && NodeImage(before[id])
    requires |c| == |before[id].items| + 1 && forall j :: 0 <= j < |c| ==> c[j] == Children(before[id], 0)[j].id
    ensures Marks(t, spots', stack + c) && Covers(before, t, spots', left - {id})
  {
    NodePopped(before, t, spots, s.k, s.q, left);
    RunMarks(before, t, spots, stack, s.k, s.q, c);
    var a, b := Start(before, t.levels[s.k], s.q), Start(before, t.levels[s.k], s.q + 1);
    spots' := spots + Run(s.k - 1, a, b - a);
  }

  // The node on top of the stack is still as it was.
  lemma {:induction false} TopIntact(pager: Pager, before: Pages, used: set<PageId>, root: PageId, t: Tree,
                                     spots: seq<Spot>, stack: seq<PageId>, s: Spot, id: PageId, left: set<PageId>)
    requires Inv(before, root, t) && Traversing(pager, before, used, t, spots + [s], stack + [id], left)
    ensures id in left && id in pager.Used() && id in pager.pages && id in before && pager.pages[id] == before[id]
    ensures SpotOf(t, s, id)
  {
    PrefixMarks(t, spots, stack, s, id);
    SpotPage(before, root, t, s, id);
    StackTop(before, t, spots, s, id);
    assert SubOwn(before, t, s.k, s.q, id) >= 1;
  }

  lemma {:induction false} Freed(used: set<PageId>, own: set<PageId>, left: set<PageId>, gone: set<PageId>)
    requires gone <= left <= own <= used
    ensures used - (own - left) - gone == used - (own - (left - gone))
  {
  }

  method PopNode(pager: Pager, id: PageId, stack: seq<PageId>, ghost before: Pages, ghost used: set<PageId>,
                 ghost root: PageId, ghost t: Tree, ghost spots: seq<Spot>, ghost s: Spot, ghost left: set<PageId>)
    returns (stack': seq<PageId>, ghost spots': seq<Spot>)
    requires Inv(before, root, t) && s.k > 0
    requires Traversing(pager, before, used, t, spots + [s], stack + [id], left)
    modifies pager
    ensures id in left && Traversing(pager, before, used, t, spots', stack', left - {id})
  {
    TopIntact(pager, before, used, root, t, spots, stack, s, id, left);
    SpotPage(before, root, t, s, id);
    var c := ChildIds(pager.pages[id]);
    PrefixMarks(t, spots, stack, s, id);
    spots' := NodeStep(before, t, spots, stack, s, id, left, c);
    Freed(used, Owned(t), left, {id});
    pager.FreePage(id);
    stack' := stack + c;
  }

  method PopLeaf(pager: Pager, id: PageId, ghost stack: seq<PageId>, ghost before: Pages, ghost used: set<PageId>,
                 ghost root: PageId, ghost t: Tree, ghost spots: seq<Spot>, ghost s: Spot, ghost left: set<PageId>)
    returns (ghost left': set<PageId>)
    requires Inv(before, root, t) && s.k == 0
    requires Traversing(pager, before, used, t, spots + [s], stack + [id], left)
    modifies pager
    ensures left' < left && Traversing(pager, before, used, t, spots, stack, left')
  {
    TopIntact(pager, before, used, root, t, spots, stack, s, id, left);
    PrefixMarks(t, spots, stack, s, id);
    SpotPage(before, root, t, s, id);
    LeafPopped(before, t, spots, s.q, left);
    ghost var cells := t.leaves[s.q].cells;
    ghost var chains := ChainPages(cells);
    LeafChainsUnique(t, s.q);
    LeafCellsIntact(before, pager.pages, pager.Used(), t, s.q);
    Freed(used, Owned(t), left, chains);
    Freed(used, Owned(t), left - chains, {id});
    ReleaseAll(pager, pager.pages[id].items, cells);
    pager.FreePage(id);
    left' := left - chains - {id};
  }

  lemma {:induction false} LeafCellsIntact(before: Pages, now: Pages, ids: set<PageId>, t: Tree, q: nat)
    requires q < |t.leaves| && LeafAt(before, t.leaves, q) && ChainPages(t.leaves[q].cells) <= ids
    requires Agree(before, now, ids)
    ensures forall m :: 0 <= m < |t.leaves[q].cells| ==> CellOk(now, t.leaves[q].cells[m])
  {
    var cells := t.leaves[q].cells;
    forall m | 0 <= m < |cells| ensures CellOk(now, cells[m]) {
      forall p | p in ChainSet(cells[m].chain) && p in before ensures p in now && now[p] == before[p] {
        CellChainOwned(cells, m, p);
      }
      CellFrame(before, now, cells[m]);
    }
  }

  // One page taken off the stack and freed, with its chains if it is a leaf.
  method PopOne(pager: Pager, below: seq<PageId>, id: PageId, ghost before: Pages, ghost used: set<PageId>,
                ghost root: PageId, ghost t: Tree, ghost rest: seq<Spot>, ghost s: Spot, ghost left: set<PageId>)
    returns (r: Result<seq<PageId>, Fault>, ghost spots: seq<Spot>, ghost left': set<PageId>)
    requires Inv(before, root, t) && Traversing(pager, before, used, t, rest + [s], below + [id], left)
    modifies pager
    ensures r.Ok? && left' < left && Traversing(pager, before, used, t, spots, r.value, left')
  {
    TopIntact(pager, before, used, root, t, rest, below, s, id, left);
    SpotPage(before, root, t, s, id);
    var kind := pager.pages[id].kind;
    if kind == Leaf {
      left' := PopLeaf(pager, id, below, before, used, root, t, rest, s, left);
      r, spots := Ok(below), rest;
    } else if kind == Internal {
      var stack;
      stack, spots := PopNode(pager, id, below, before, used, root, t, rest, s, left);
      r, left' := Ok(stack), left - {id};
    } else {
      r, spots, left' := Err(UnexpectedPage), rest, left;
    }
  }

  // Frees the pages of the tree, all of them and no others.
  method Destroy(pager: Pager, root: PageId, ghost t: Tree) returns (r: Result<(), Fault>)
    requires Holds(pager, root, t)
    modifies pager
    ensures r == Ok(()) && pager.Valid()
    ensures pager.Used() == old(pager.Used()) - Owned(t)
    ensures Agree(old(pager.pages), pager.pages, pager.Used())
  {
    ghost var before, used := pager.pages, pager.Used();
    var stack := [root];
    ghost var spots, left := [Spot(|t.levels| - 1, 0)], Owned(t);
    StartCovers(pager.pages, root, t);
    while stack != []
      invariant Traversing(pager, before, used, t, spots, stack, left)
      decreases left
    {
      var id, below := stack[|stack| - 1], stack[..|stack| - 1];
      ghost var s, rest := spots[|spots| - 1], spots[..|spots| - 1];
      LastApart(stack);
      LastApart(spots);
      var popped;
      popped, spots, left := PopOne(pager, below, id, before, used, root, t, rest, s, left);
      match popped {
        case Err(e) => return Err(e);
        case Ok(more) => stack := more;
      }
    }
    assert spots == [];
    NothingLeft(before, t, left);
    return Ok(());
  }
}
