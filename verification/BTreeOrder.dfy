// The leaves, read left to right, hold one ascending run of keys; a key can only be in the leaf
// responsible for it.
module BTreeOrder {
  import opened Bytes
  import opened PageImage
  import opened BTreeModel
  import opened BTreeShape
  import opened BTreeInvariant

  ghost predicate InRange(l: LeafNode) {
    Ascending(l.cells) && forall j :: 0 <= j < |l.cells| ==> l.low <= l.cells[j].key
  }

  ghost predicate Ordered(leaves: seq<LeafNode>) {
    && (forall i :: 0 <= i < |leaves| ==> InRange(leaves[i]))
    && Bounded(leaves)
    && Rising(LeafLevel(leaves))
  }

  lemma {:induction false} TreeOrdered(pages: Pages, root: PageId, t: Tree)
    requires Inv(pages, root, t)
    ensures Ordered(t.leaves)
  {
    forall i | 0 <= i < |t.leaves| ensures InRange(t.leaves[i]) {
      assert LeafAt(pages, t.leaves, i);
    }
  }

  ghost predicate KeysBelow(cells: seq<Cell>, bound: nat) {
    forall j :: 0 <= j < |cells| ==> cells[j].key < bound
  }

  ghost predicate KeysFrom(cells: seq<Cell>, bound: nat) {
    forall j :: 0 <= j < |cells| ==> bound <= cells[j].key
  }

  lemma {:induction false} CellsBefore(leaves: seq<LeafNode>, i: nat)
    requires Ordered(leaves) && i < |leaves|
    ensures KeysBelow(CellsOf(leaves[..i]), leaves[i].low)
  {
    if i > 0 {
      CellsBefore(leaves, i - 1);
      assert leaves[..i] == leaves[..i - 1] + [leaves[i - 1]];
      CellsAppend(leaves[..i - 1], [leaves[i - 1]]);
      assert [leaves[i - 1]][1..] == [];
      assert CellsOf([leaves[i - 1]]) == leaves[i - 1].cells;
      assert LeafLevel(leaves)[i - 1].low < LeafLevel(leaves)[i].low;
      assert BoundedAt(leaves, i - 1);
    }
  }

  lemma {:induction false} CellsAfter(leaves: seq<LeafNode>, i: nat)
    requires Ordered(leaves) && i < |leaves|
    ensures KeysFrom(CellsOf(leaves[i..]), leaves[i].low)
    decreases |leaves| - i
  {
    assert leaves[i..][1..] == leaves[i + 1..];
    assert InRange(leaves[i]);
    if i + 1 < |leaves| {
      CellsAfter(leaves, i + 1);
      assert LeafLevel(leaves)[i].low < LeafLevel(leaves)[i + 1].low;
    }
  }

  lemma {:induction false} AscendingAppend(a: seq<Cell>, b: seq<Cell>, bound: nat)
    requires Ascending(a) && Ascending(b) && KeysBelow(a, bound) && KeysFrom(b, bound)
    ensures Ascending(a + b)
  {
  }

  lemma {:induction false} PrefixAscending(leaves: seq<LeafNode>, i: nat)
    requires Ordered(leaves) && i <= |leaves|
    ensures Ascending(CellsOf(leaves[..i]))
  {
    if i > 0 {
      PrefixAscending(leaves, i - 1);
      CellsBefore(leaves, i - 1);
      assert leaves[..i] == leaves[..i - 1] + [leaves[i - 1]];
      CellsAppend(leaves[..i - 1], [leaves[i - 1]]);
      assert [leaves[i - 1]][1..] == [];
      assert CellsOf([leaves[i - 1]]) == leaves[i - 1].cells;
      assert InRange(leaves[i - 1]);
      AscendingAppend(CellsOf(leaves[..i - 1]), leaves[i - 1].cells, leaves[i - 1].low);
    }
  }

  lemma {:induction false} AllAscending(leaves: seq<LeafNode>)
    requires Ordered(leaves)
    ensures Ascending(CellsOf(leaves))
  {
    PrefixAscending(leaves, |leaves|);
    assert leaves[..|leaves|] == leaves;
  }

  // Around the leaf responsible for `key`, everything before is smaller and everything after
  // is larger.
  lemma {:induction false} AroundKey(leaves: seq<LeafNode>, key: u64, i: nat)
    requires Ordered(leaves) && i < |leaves|
    requires leaves[i].low <= key && (i + 1 < |leaves| ==> key < leaves[i + 1].low)
    ensures CellsOf(leaves) == CellsOf(leaves[..i]) + leaves[i].cells + CellsOf(leaves[i + 1..])
    ensures KeysBelow(CellsOf(leaves[..i]), key)
    ensures KeysFrom(CellsOf(leaves[i + 1..]), key + 1)
  {
    CellsAround(leaves, i);
    CellsBefore(leaves, i);
    if i + 1 < |leaves| {
      CellsAfter(leaves, i + 1);
    } else {
      assert leaves[i + 1..] == [];
    }
  }

  lemma {:induction false} KeyInMiddle(a: seq<Cell>, c: seq<Cell>, b: seq<Cell>, key: nat)
    requires KeysBelow(a, key) && KeysFrom(b, key + 1)
    ensures HasKey(a + c + b, key) <==> HasKey(c, key)
  {
    var all := a + c + b;
    if HasKey(all, key) {
      var j :| 0 <= j < |all| && all[j].key == key;
      assert c[j - |a|].key == key;
    }
    if HasKey(c, key) {
      var j :| 0 <= j < |c| && c[j].key == key;
      assert all[|a| + j].key == key;
    }
  }

  lemma {:induction false} PayloadInMiddle(a: seq<Cell>, c: seq<Cell>, b: seq<Cell>, j: nat)
    requires Ascending(a + c + b) && j < |c|
    ensures c[j].key in MapOf(a + c + b) && MapOf(a + c + b)[c[j].key] == c[j].payload
  {
    assert (a + c + b)[|a| + j] == c[j];
    MapOfAt(a + c + b, |a| + j);
  }

  // A key is stored somewhere exactly when it is in the leaf responsible for it.
  lemma {:induction false} KeyInItsLeaf(leaves: seq<LeafNode>, key: u64, i: nat)
    requires Ordered(leaves) && i < |leaves|
    requires leaves[i].low <= key && (i + 1 < |leaves| ==> key < leaves[i + 1].low)
    ensures HasKey(CellsOf(leaves), key) <==> HasKey(leaves[i].cells, key)
    ensures key in MapOf(CellsOf(leaves)) <==> HasKey(leaves[i].cells, key)
    ensures forall j :: 0 <= j < |leaves[i].cells| && leaves[i].cells[j].key == key ==>
              key in MapOf(CellsOf(leaves)) && MapOf(CellsOf(leaves))[key] == leaves[i].cells[j].payload
  {
    AroundKey(leaves, key, i);
    AllAscending(leaves);
    var a, c, b := CellsOf(leaves[..i]), leaves[i].cells, CellsOf(leaves[i + 1..]);
    MapOfKeys(CellsOf(leaves), key);
    KeyInMiddle(a, c, b, key);
    forall j | 0 <= j < |c| && c[j].key == key
      ensures key in MapOf(a + c + b) && MapOf(a + c + b)[key] == c[j].payload
    {
      PayloadInMiddle(a, c, b, j);
    }
  }
}
