// Levels: how the pages of internal nodes list the level below them, and where a key belongs.
module BTreeShape {
  import opened Bytes
  import opened PageImage
  import opened BTreeModel

  // A page together with the lowest key that may be stored under it.
  datatype Entry = Entry(low: u64, id: PageId)

  type Level = seq<Entry>

  ghost predicate Rising(lvl: Level) {
    forall i, j :: 0 <= i < j < |lvl| ==> lvl[i].low < lvl[j].low
  }

  // A full level: non-empty, starting at the smallest key there is.
  ghost predicate Complete(lvl: Level) {
    |lvl| >= 1 && lvl[0].low == 0 && Rising(lvl)
  }

  // ------------------------------------------------------- where a key goes

  // The last entry whose lowest key does not exceed `key`.
  ghost function Locate(lvl: Level, key: u64): (i: nat)
    requires |lvl| >= 1 && lvl[0].low <= key
    ensures i < |lvl| && lvl[i].low <= key
    ensures i + 1 < |lvl| ==> key < lvl[i + 1].low
  {
    if |lvl| == 1 || key < lvl[1].low then 0 else 1 + Locate(lvl[1..], key)
  }

  lemma {:induction false} LocateIs(lvl: Level, key: u64, i: nat)
    requires Rising(lvl) && i < |lvl| && lvl[i].low <= key
    requires i + 1 < |lvl| ==> key < lvl[i + 1].low
    ensures lvl[0].low <= key && Locate(lvl, key) == i
  {
    assert i > 0 ==> lvl[0].low < lvl[i].low;
    var j := Locate(lvl, key);
  }

  // --------------------------------------------------------- internal nodes

  ghost predicate NodeImage(p: Image) {
    && p.Slotted? && p.kind.Internal? && WellFormed(p)
    && |p.items| >= 1
    && (forall i :: 0 <= i < |p.items| ==> |p.items[i]| == INTERNAL_ITEM)
    && p.freeEnd == PAGE_SIZE - INTERNAL_ITEM * |p.items|
  }

  ghost function ItemEntries(items: seq<Item>): (es: Level)
    requires forall i :: 0 <= i < |items| ==> |items[i]| == INTERNAL_ITEM
    ensures |es| == |items|
  {
    seq(|items|, i requires 0 <= i < |items| => Entry(ItemKey(items[i]), InternalChild(items[i])))
  }

  // The children a node lists, the leftmost one inheriting the node's own lowest key.
  ghost function Children(p: Image, low: u64): (es: Level)
    requires NodeImage(p)
    ensures |es| == |p.items| + 1
  {
    [Entry(low, p.extra)] + ItemEntries(p.items)
  }

  ghost predicate NodesOk(pages: Pages, lvl: Level) {
    forall i :: 0 <= i < |lvl| ==> lvl[i].id in pages && NodeImage(pages[lvl[i].id])
  }

  // Everything the nodes of a level list, left to right.
  ghost function Expand(pages: Pages, lvl: Level): Level
    requires NodesOk(pages, lvl)
  {
    if lvl == [] then []
    else Children(pages[lvl[0].id], lvl[0].low) + Expand(pages, lvl[1..])
  }

  lemma {:induction false} ExpandAppend(pages: Pages, a: Level, b: Level)
    requires NodesOk(pages, a) && NodesOk(pages, b)
    ensures NodesOk(pages, a + b)
    ensures Expand(pages, a + b) == Expand(pages, a) + Expand(pages, b)
  {
    if a == [] {
      assert a + b == b;
    } else {
      var rest := a[1..];
      assert NodesOk(pages, rest) by {
        assert forall i :: 0 <= i < |rest| ==> rest[i] == a[i + 1];
      }
      assert NodesOk(pages, a + b);
      ExpandAppend(pages, rest, b);
      assert (a + b)[1..] == rest + b;
      var kids := Children(pages[a[0].id], a[0].low);
      assert Expand(pages, a + b) == kids + Expand(pages, rest + b);
      assert kids + (Expand(pages, rest) + Expand(pages, b)) == (kids + Expand(pages, rest)) + Expand(pages, b);
    }
  }

  lemma {:induction false} ExpandOne(pages: Pages, e: Entry)
    requires NodesOk(pages, [e])
    ensures [e][0] == e
    ensures Expand(pages, [e]) == Children(pages[e.id], e.low)
  {
    assert [e][1..] == [];
  }

  // A level opened up around one of its nodes.
  lemma {:induction false} ExpandAround(pages: Pages, lvl: Level, q: nat)
    requires NodesOk(pages, lvl) && q < |lvl|
    ensures NodesOk(pages, lvl[..q]) && NodesOk(pages, lvl[q + 1..])
    ensures Expand(pages, lvl) ==
            Expand(pages, lvl[..q]) + Children(pages[lvl[q].id], lvl[q].low) + Expand(pages, lvl[q + 1..])
  {
    var a, e, b := lvl[..q], lvl[q], lvl[q + 1..];
    assert lvl == a + ([e] + b);
    assert forall i :: 0 <= i < |b| ==> b[i] == lvl[i + q + 1];
    assert NodesOk(pages, [e]);
    ExpandAppend(pages, [e], b);
    ExpandAppend(pages, a, [e] + b);
    ExpandOne(pages, e);
  }

  ghost function LevelIds(lvl: Level): (s: seq<PageId>)
    ensures |s| == |lvl|
  {
    seq(|lvl|, i requires 0 <= i < |lvl| => lvl[i].id)
  }

  // Expansion reads only the pages of the level itself.
  lemma {:induction false} ExpandFrame(pages: Pages, after: Pages, lvl: Level)
    requires NodesOk(pages, lvl)
    requires forall i :: 0 <= i < |lvl| ==> lvl[i].id in after && after[lvl[i].id] == pages[lvl[i].id]
    ensures NodesOk(after, lvl) && Expand(after, lvl) == Expand(pages, lvl)
  {
    if lvl != [] {
      assert forall i :: 0 <= i < |lvl[1..]| ==> lvl[1..][i] == lvl[i + 1];
      ExpandFrame(pages, after, lvl[1..]);
    }
  }

  lemma {:induction false} ExpandHead(pages: Pages, lvl: Level)
    requires NodesOk(pages, lvl) && lvl != []
    ensures |Expand(pages, lvl)| >= 2 * |lvl|
    ensures Expand(pages, lvl)[0].low == lvl[0].low
  {
    if |lvl| > 1 {
      assert forall i :: 0 <= i < |lvl[1..]| ==> lvl[1..][i] == lvl[i + 1];
      ExpandHead(pages, lvl[1..]);
    }
  }

  lemma {:induction false} RisingSlice(lvl: Level, a: Level, mid: Level, b: Level)
    requires lvl == a + mid + b && Rising(lvl)
    ensures Rising(mid)
    ensures forall i, j :: 0 <= i < |mid| && 0 <= j < |b| ==> mid[i].low < b[j].low
    ensures forall i, j :: 0 <= i < |a| && 0 <= j < |mid| ==> a[i].low < mid[j].low
  {
    assert forall i :: 0 <= i < |a| ==> a[i] == lvl[i];
    assert forall i :: 0 <= i < |mid| ==> mid[i] == lvl[|a| + i];
    assert forall j :: 0 <= j < |b| ==> b[j] == lvl[|a| + |mid| + j];
  }

  // Searching a node for a key agrees with searching the level below: the child reached from the
  // node responsible for `key` is the entry of the lower level responsible for `key`.
  lemma {:induction false} LocateMiddle(a: Level, mid: Level, b: Level, key: u64)
    requires Rising(a + mid + b) && |mid| >= 1 && mid[0].low <= key && (b != [] ==> key < b[0].low)
    ensures (a + mid + b)[0].low <= key && Locate(a + mid + b, key) == |a| + Locate(mid, key)
  {
    var all := a + mid + b;
    var r := Locate(mid, key);
    assert all[|a| + r] == mid[r];
    if r + 1 < |mid| {
      assert all[|a| + r + 1] == mid[r + 1];
    } else if b != [] {
      assert all[|a| + r + 1] == b[0];
    }
    LocateIs(all, key, |a| + r);
  }

  lemma {:induction false} LocateBelow(pages: Pages, above: Level, key: u64)
    requires NodesOk(pages, above) && Complete(above) && Complete(Expand(pages, above))
    ensures var q := Locate(above, key);
            var kids := Children(pages[above[q].id], above[q].low);
            && NodesOk(pages, above[..q])
            && kids[0].low <= key && Rising(kids)
            && Locate(Expand(pages, above), key) == |Expand(pages, above[..q])| + Locate(kids, key)
  {
    var q := Locate(above, key);
    var e := above[q];
    var kids := Children(pages[e.id], e.low);
    var below := Expand(pages, above);
    ExpandAround(pages, above, q);
    var a, b := Expand(pages, above[..q]), Expand(pages, above[q + 1..]);
    RisingSlice(below, a, kids, b);
    assert kids[0].low == e.low;
    if q + 1 < |above| {
      ExpandHead(pages, above[q + 1..]);
      assert b[0].low == above[q + 1].low;
    } else {
      assert above[q + 1..] == [];
    }
    LocateMiddle(a, kids, b, key);
  }
}
