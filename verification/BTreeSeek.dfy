// The ordered seek: the smallest stored key at or above a bound, found by walking the leaf chain.
module BTreeSeek {
  import opened Bytes
  import opened PageImage
  import opened Wrappers
  import opened Paging
  import opened BTreeModel
  import opened BTreeShape
  import opened BTreeInvariant
  import opened BTreeOrder
  import opened BTreeOverflow
  import opened BTreeRead

  ghost predicate IsLeast(m: map<nat, seq<byte>>, from: nat, k: nat) {
    k in m && from <= k && forall j :: j in m && from <= j ==> k <= j
  }

  ghost predicate NoneFrom(m: map<nat, seq<byte>>, from: nat) {
    forall j :: j in m ==> j < from
  }

  lemma {:induction false} LeastInRun(all: seq<Cell>, from: nat, at: nat)
    requires Ascending(all) && at < |all|
    requires KeysBelow(all[..at], from) && from <= all[at].key
    ensures IsLeast(MapOf(all), from, all[at].key) && MapOf(all)[all[at].key] == all[at].payload
  {
    MapOfAt(all, at);
    assert forall n :: 0 <= n < at ==> all[n] == all[..at][n];
    forall k | k in MapOf(all) && from <= k ensures all[at].key <= k {
      MapOfKeys(all, k);
      var n :| 0 <= n < |all| && all[n].key == k;
    }
  }

  lemma {:induction false} LeastAt(leaves: seq<LeafNode>, from: u64, i: nat, j: nat)
    requires Ordered(leaves) && i < |leaves| && j < |leaves[i].cells|
    requires KeysBelow(CellsOf(leaves[..i]), from)
    requires KeysBelow(leaves[i].cells[..j], from) && from <= leaves[i].cells[j].key
    ensures var m := MapOf(CellsOf(leaves));
            IsLeast(m, from, leaves[i].cells[j].key) && m[leaves[i].cells[j].key] == leaves[i].cells[j].payload
  {
    CellsAround(leaves, i);
    AllAscending(leaves);
    var a, c, b := CellsOf(leaves[..i]), leaves[i].cells, CellsOf(leaves[i + 1..]);
    KeysBelowSplice(a, c, b, j, from);
    LeastInRun(a + c + b, from, |a| + j);
  }

  lemma {:induction false} KeysBelowSplice(a: seq<Cell>, c: seq<Cell>, b: seq<Cell>, j: nat, from: nat)
    requires j < |c| && KeysBelow(a, from) && KeysBelow(c[..j], from)
    ensures KeysBelow((a + c + b)[..|a| + j], from) && (a + c + b)[|a| + j] == c[j]
  {
    assert (a + c + b)[..|a| + j] == a + c[..j];
  }

  lemma {:induction false} NothingLeft(leaves: seq<LeafNode>, from: u64)
    requires KeysBelow(CellsOf(leaves), from)
    ensures NoneFrom(MapOf(CellsOf(leaves)), from)
  {
    forall k | k in MapOf(CellsOf(leaves)) ensures k < from {
      MapOfKeys(CellsOf(leaves), k);
    }
  }

  lemma {:induction false} LeafPassed(leaves: seq<LeafNode>, from: u64, i: nat)
    requires i < |leaves|
    requires KeysBelow(CellsOf(leaves[..i]), from) && KeysBelow(leaves[i].cells, from)
    ensures KeysBelow(CellsOf(leaves[..i + 1]), from)
  {
    assert leaves[..i + 1] == leaves[..i] + [leaves[i]];
    CellsAppend(leaves[..i], [leaves[i]]);
    assert [leaves[i]][1..] == [];
    assert CellsOf([leaves[i]]) == leaves[i].cells;
  }

  // The leaves as the chain links them.
  ghost predicate Scannable(pages: Pages, leaves: seq<LeafNode>) {
    && Ordered(leaves)
    && (forall i :: 0 <= i < |leaves| ==> leaves[i].id != NO_PAGE)
    && (forall i :: 0 <= i < |leaves| ==> LeafAt(pages, leaves, i))
  }

  lemma {:induction false} TreeScannable(pages: Pages, root: PageId, t: Tree)
    requires Inv(pages, root, t)
    ensures Scannable(pages, t.leaves)
  {
    TreeOrdered(pages, root, t);
    forall i | 0 <= i < |t.leaves| ensures t.leaves[i].id != NO_PAGE {
      NodeOwned(t.levels, 0, i);
    }
  }

  // The first slot of a leaf at or after `from`.
  method FirstFrom(items: seq<Item>, from: u64, ghost cells: seq<Cell>) returns (start: nat)
    requires items == CellItems(cells) && Ascending(cells)
    ensures start <= |items|
    ensures KeysBelow(cells[..start], from)
    ensures start < |items| ==> from <= cells[start].key
  {
    CellKeysRise(cells);
    var slot := SlotSearch(items, from);
    start := slot.at;
    if slot.Found? {
      assert cells[start].key == from;
      assert forall m :: 0 <= m < start ==> cells[m].key < cells[start].key;
    }
  }

  type Hit = Result<Option<(u64, seq<byte>)>, Fault>

  // `r` is what a seek from `from` over `m` must return.
  ghost predicate Sought(m: map<nat, seq<byte>>, from: nat, r: Hit) {
    match r
    case Ok(None) => NoneFrom(m, from)
    case Ok(Some((k, payload))) => IsLeast(m, from, k) && m[k] == payload
    case Err(e) => e == LengthMismatch && exists k :: IsLeast(m, from, k) && |m[k]| >= U32
  }

  lemma {:induction false} EndOfChain(leaves: seq<LeafNode>, from: u64, i: nat)
    requires i + 1 == |leaves|
    requires KeysBelow(CellsOf(leaves[..i]), from) && KeysBelow(leaves[i].cells, from)
    ensures NoneFrom(MapOf(CellsOf(leaves)), from)
  {
    LeafPassed(leaves, from, i);
    assert leaves[..i + 1] == leaves;
    NothingLeft(leaves, from);
  }

  // Looks for the bound in one leaf; `None` sends the scan on to the next one.
  method SeekLeaf(pager: Pager, leaf: PageId, from: u64, ghost leaves: seq<LeafNode>, ghost i: nat)
    returns (hit: Option<Hit>)
    requires Ordered(leaves) && i < |leaves| && leaf == leaves[i].id
    requires LeafAt(pager.pages, leaves, i)
    requires KeysBelow(CellsOf(leaves[..i]), from)
    ensures hit.None? ==> KeysBelow(leaves[i].cells, from)
    ensures hit.Some? ==> Sought(MapOf(CellsOf(leaves)), from, hit.value)
  {
    ghost var cells := leaves[i].cells;
    var items := pager.pages[leaf].items;
    var start := FirstFrom(items, from, cells);
    if start < |items| {
      LeastAt(leaves, from, i, start);
      CellItemKey(cells[start]);
      var payload := PayloadOf(pager, items[start], cells[start]);
      match payload
      case Ok(bytes) => return Some(Ok(Some((ItemKey(items[start]), bytes))));
      case Err(e) => return Some(Err(e));
    } else {
      assert cells[..start] == cells;
      return None;
    }
  }

  // One turn of the scan: an answer, or the leaf to look at next.
  method SeekStep(pager: Pager, leaf: PageId, from: u64, ghost leaves: seq<LeafNode>, ghost i: nat)
    returns (hit: Option<Hit>, next: PageId)
    requires Scannable(pager.pages, leaves) && i < |leaves| && leaf == leaves[i].id
    requires KeysBelow(CellsOf(leaves[..i]), from)
    ensures hit.Some? ==> Sought(MapOf(CellsOf(leaves)), from, hit.value)
    ensures hit.None? ==> i + 1 < |leaves| && next == leaves[i + 1].id && KeysBelow(CellsOf(leaves[..i + 1]), from)
  {
    assert LeafAt(pager.pages, leaves, i);
    hit := SeekLeaf(pager, leaf, from, leaves, i);
    next := NO_PAGE;
    if hit.None? {
      LeafPassed(leaves, from, i);
      next := pager.pages[leaf].extra;
      if next == NO_PAGE {
        EndOfChain(leaves, from, i);
        hit := Some(Ok(None));
      }
    }
  }

  method SeekAlong(pager: Pager, first: PageId, from: u64, ghost leaves: seq<LeafNode>, ghost start: nat)
    returns (r: Hit)
    requires Scannable(pager.pages, leaves) && start < |leaves| && first == leaves[start].id
    requires KeysBelow(CellsOf(leaves[..start]), from)
    ensures Sought(MapOf(CellsOf(leaves)), from, r)
  {
    ghost var i := start;
    var hit: Option<Hit>, leaf := None, first;
    while hit.None?
      invariant hit.Some? ==> Sought(MapOf(CellsOf(leaves)), from, hit.value)
      invariant hit.None? ==> i < |leaves| && leaf == leaves[i].id && KeysBelow(CellsOf(leaves[..i]), from)
      decreases hit.None?, |leaves| - i
    {
      hit, leaf := SeekStep(pager, leaf, from, leaves, i);
      i := i + 1;
    }
    r := hit.value;
  }

  method Seek(pager: Pager, root: PageId, from: u64, ghost t: Tree) returns (r: Hit)
    requires Inv(pager.pages, root, t)
    ensures Sought(Contents(t), from, r)
  {
    var d := Descend(pager, root, from, t);
    TreeScannable(pager.pages, root, t);
    ghost var i := Locate(t.levels[0], from);
    LeafPage(pager.pages, root, t, i);
    AroundKey(t.leaves, from, i);
    match d
    case Err(e) => return Err(e);
    case Ok(v) => r := SeekAlong(pager, v.0, from, t.leaves, i);
  }

  // A seek has only one right answer.
  lemma {:induction false} SoughtUnique(m: map<nat, seq<byte>>, from: nat, a: Hit, b: Hit)
    requires Sought(m, from, a) && Sought(m, from, b) && a.Ok? && b.Ok?
    ensures a == b
  {
  }
}
