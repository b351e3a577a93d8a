// What the pages of a B+-tree mean.
//
// A tree is described level by level rather than as nested nodes. A level lists its pages from
// left to right, each with the lowest key it may hold. Reading every page of an internal level
// in order (leftmost child first, then its separator items) must give back exactly the level
// below it; the top level is the root alone. From that one equation follow the separator
// ranges, the uniform depth and, with the leaf chain, the order a scan sees.
module BTreeModel {
  import opened Bytes
  import opened PageImage

  const KEY_LEN: nat := 8
  const FLAG_INLINE: byte := 0
  const FLAG_OVERFLOW: byte := 1
  const LEAF_HEADER: nat := KEY_LEN + 1
  const OVERFLOW_DESCRIPTOR: nat := LEAF_HEADER + 8
  const INTERNAL_ITEM: nat := KEY_LEN + 4
  const MAX_INLINE: nat := 2000
  const OVERFLOW_CHUNK: nat := PAGE_SIZE - HEADER_SIZE - 4

  // ------------------------------------------------------------------ items

  // A field read out of an item as if the item were zero-padded.
  function LeField(item: seq<byte>, at: nat, n: nat): (f: seq<byte>)
    requires at <= |item|
    ensures |f| == n
  {
    var available := if |item| - at < n then |item| - at else n;
    item[at..at + available] + Zeros(n - available)
  }

  function ItemKey(item: Item): (k: u64) {
    FromLEBound(LeField(item, 0, KEY_LEN));
    Widths();
    FromLE(LeField(item, 0, KEY_LEN))
  }

  function InternalChild(item: Item): (id: PageId)
    requires |item| >= KEY_LEN
  {
    FromLEBound(LeField(item, KEY_LEN, 4));
    Widths();
    FromLE(LeField(item, KEY_LEN, 4))
  }

  function InternalItem(key: u64, child: PageId): (item: Item)
    ensures |item| == INTERNAL_ITEM
  {
    ToLE(key, KEY_LEN) + ToLE(child, 4)
  }

  lemma {:induction false} InternalItemReadsBack(key: u64, child: PageId)
    ensures ItemKey(InternalItem(key, child)) == key
    ensures InternalChild(InternalItem(key, child)) == child
  {
    var item := InternalItem(key, child);
    assert LeField(item, 0, KEY_LEN) == ToLE(key, KEY_LEN);
    assert LeField(item, KEY_LEN, 4) == ToLE(child, 4);
    U64RoundTrip(key);
    U32RoundTrip(child);
  }

  // One key with its payload and the overflow pages that hold it, empty for an inline payload.
  datatype Cell = Cell(key: u64, payload: seq<byte>, chain: seq<PageId>)

  function First(chain: seq<PageId>): PageId {
    if chain == [] then NO_PAGE else chain[0]
  }

  function CellItem(c: Cell): (item: Item)
    ensures KEY_LEN < |item| <= LEAF_HEADER + MAX_INLINE
  {
    if |c.payload| <= MAX_INLINE then ToLE(c.key, KEY_LEN) + [FLAG_INLINE] + c.payload
    else ToLE(c.key, KEY_LEN) + [FLAG_OVERFLOW] + ToLE(|c.payload|, 4) + ToLE(First(c.chain), 4)
  }

  function CellItems(cells: seq<Cell>): (items: seq<Item>)
    ensures |items| == |cells|
  {
    seq(|cells|, i requires 0 <= i < |cells| => CellItem(cells[i]))
  }

  lemma {:induction false} CellItemKey(c: Cell)
    ensures ItemKey(CellItem(c)) == c.key
  {
    assert LeField(CellItem(c), 0, KEY_LEN) == ToLE(c.key, KEY_LEN);
    U64RoundTrip(c.key);
  }

  // The descriptor keeps the payload length modulo 2^32 and the id of the first overflow page.
  lemma {:induction false} DescriptorFields(c: Cell)
    requires |c.payload| > MAX_INLINE
    ensures |CellItem(c)| == OVERFLOW_DESCRIPTOR && CellItem(c)[KEY_LEN] == FLAG_OVERFLOW
    ensures FromLE(LeField(CellItem(c), LEAF_HEADER, 4)) == |c.payload| % U32
    ensures FromLE(LeField(CellItem(c), LEAF_HEADER + 4, 4)) == First(c.chain)
  {
    var item := CellItem(c);
    assert LeField(item, LEAF_HEADER, 4) == ToLE(|c.payload|, 4);
    assert LeField(item, LEAF_HEADER + 4, 4) == ToLE(First(c.chain), 4);
    LERoundTrip(|c.payload|, 4);
    Widths();
    U32RoundTrip(First(c.chain));
  }

  type Pages = map<PageId, Image>

  // -------------------------------------------------------- overflow chains

  ghost predicate HoldsChunk(pages: Pages, id: PageId, chunk: seq<byte>, next: PageId) {
    && id != NO_PAGE && id in pages
    && |chunk| <= OVERFLOW_CHUNK
    && var p := pages[id];
       && p.Record? && p.kind.Overflow? && p.extra == next
       && |p.body| == CAPACITY
       && p.body[..4] == ToLE(|chunk|, 4)
       && p.body[4..4 + |chunk|] == chunk
  }

  // `data.chunks(OVERFLOW_CHUNK)`, with one empty chunk for no data at all.
  function Chunks(data: seq<byte>): (c: seq<seq<byte>>)
    ensures |c| >= 1
    ensures forall i :: 0 <= i < |c| ==> |c[i]| <= OVERFLOW_CHUNK
  {
    if |data| <= OVERFLOW_CHUNK then [data]
    else [data[..OVERFLOW_CHUNK]] + Chunks(data[OVERFLOW_CHUNK..])
  }

  ghost function Joined(chunks: seq<seq<byte>>): seq<byte> {
    if chunks == [] then [] else chunks[0] + Joined(chunks[1..])
  }

  lemma {:induction false} ChunksJoin(data: seq<byte>)
    ensures Joined(Chunks(data)) == data
  {
    if |data| <= OVERFLOW_CHUNK {
      assert Chunks(data)[1..] == [];
    } else {
      ChunksJoin(data[OVERFLOW_CHUNK..]);
      assert Chunks(data)[1..] == Chunks(data[OVERFLOW_CHUNK..]);
    }
  }

  ghost predicate HoldsAt(pages: Pages, chain: seq<PageId>, chunks: seq<seq<byte>>, i: nat)
    requires i < |chain| == |chunks|
  {
    HoldsChunk(pages, chain[i], chunks[i], First(chain[i + 1..]))
  }

  // One page per chunk, each pointing at the next, the last at nothing.
  ghost predicate HoldsChunks(pages: Pages, chain: seq<PageId>, chunks: seq<seq<byte>>) {
    && |chain| == |chunks|
    && forall i :: 0 <= i < |chain| ==> HoldsAt(pages, chain, chunks, i)
  }

  ghost predicate HoldsChain(pages: Pages, chain: seq<PageId>, data: seq<byte>) {
    HoldsChunks(pages, chain, Chunks(data))
  }

  // `after` still holds what `pages` held under every id in `ids`.
  ghost predicate Agree(pages: Pages, after: Pages, ids: set<PageId>) {
    forall p :: p in ids && p in pages ==> p in after && after[p] == pages[p]
  }

  ghost function ChainSet(chain: seq<PageId>): set<PageId> {
    set p | p in chain
  }

  lemma {:induction false} ChunksFrame(pages: Pages, after: Pages, chain: seq<PageId>, chunks: seq<seq<byte>>)
    requires HoldsChunks(pages, chain, chunks)
    requires Agree(pages, after, ChainSet(chain))
    ensures HoldsChunks(after, chain, chunks)
  {
    forall i | 0 <= i < |chain| ensures HoldsAt(after, chain, chunks, i) {
      assert HoldsAt(pages, chain, chunks, i);
      assert chain[i] in ChainSet(chain);
    }
  }

  ghost predicate CellOk(pages: Pages, c: Cell) {
    if |c.payload| <= MAX_INLINE then c.chain == []
    else HoldsChain(pages, c.chain, c.payload)
  }

  // ------------------------------------------------------------------ cells

  ghost predicate Ascending(cells: seq<Cell>) {
    forall i, j :: 0 <= i < j < |cells| ==> cells[i].key < cells[j].key
  }

  ghost predicate HasKey(cells: seq<Cell>, key: nat) {
    exists i :: 0 <= i < |cells| && cells[i].key == key
  }

  // The finite map the cells spell out.
  ghost function MapOf(cells: seq<Cell>): map<nat, seq<byte>> {
    if cells == [] then map[]
    else
      var last := cells[|cells| - 1];
      MapOf(cells[..|cells| - 1])[last.key := last.payload]
  }

  lemma {:induction false} MapOfKeys(cells: seq<Cell>, key: nat)
    ensures key in MapOf(cells) <==> HasKey(cells, key)
  {
    if cells != [] {
      var front := cells[..|cells| - 1];
      MapOfKeys(front, key);
      if HasKey(front, key) {
        var i :| 0 <= i < |front| && front[i].key == key;
        assert cells[i].key == key;
      }
      if HasKey(cells, key) {
        var i :| 0 <= i < |cells| && cells[i].key == key;
        assert i == |cells| - 1 || front[i].key == key;
      }
    }
  }

  lemma {:induction false} MapOfAt(cells: seq<Cell>, i: nat)
    requires Ascending(cells) && i < |cells|
    ensures cells[i].key in MapOf(cells) && MapOf(cells)[cells[i].key] == cells[i].payload
  {
    var front := cells[..|cells| - 1];
    if i < |front| {
      MapOfAt(front, i);
      assert front[i] == cells[i];
    }
  }

  // The map of a whole ascending run, read off cell by cell.
  lemma {:induction false} MapOfIs(cells: seq<Cell>, m: map<nat, seq<byte>>)
    requires Ascending(cells)
    requires forall k :: k in m <==> HasKey(cells, k)
    requires forall i :: 0 <= i < |cells| && cells[i].key in m ==> m[cells[i].key] == cells[i].payload
    ensures MapOf(cells) == m
  {
    forall k
      ensures k in MapOf(cells) <==> k in m
      ensures k in m && k in MapOf(cells) ==> MapOf(cells)[k] == m[k]
    {
      MapOfKeys(cells, k);
      if k in m {
        var i :| 0 <= i < |cells| && cells[i].key == k;
        MapOfAt(cells, i);
      }
    }
  }

  lemma {:induction false} AscendingWithout(cells: seq<Cell>, i: nat)
    requires Ascending(cells) && i < |cells|
    ensures Ascending(RemoveAt(cells, i))
  {
  }

  lemma {:induction false} HasKeyWithout(cells: seq<Cell>, i: nat, k: nat)
    requires Ascending(cells) && i < |cells|
    ensures HasKey(RemoveAt(cells, i), k) <==> HasKey(cells, k) && k != cells[i].key
  {
    if HasKey(RemoveAt(cells, i), k) {
      OtherKeyLeft(cells, i, k);
    }
    if HasKey(cells, k) && k != cells[i].key {
      OtherKeyStays(cells, i, k);
    }
  }

  lemma {:induction false} OtherKeyLeft(cells: seq<Cell>, i: nat, k: nat)
    requires Ascending(cells) && i < |cells| && HasKey(RemoveAt(cells, i), k)
    ensures HasKey(cells, k) && k != cells[i].key
  {
    var rest := RemoveAt(cells, i);
    var j :| 0 <= j < |rest| && rest[j].key == k;
    if j < i {
      assert cells[j].key == k && cells[j].key < cells[i].key;
    } else {
      assert cells[j + 1].key == k && cells[i].key < cells[j + 1].key;
    }
  }

  lemma {:induction false} OtherKeyStays(cells: seq<Cell>, i: nat, k: nat)
    requires i < |cells| && HasKey(cells, k) && k != cells[i].key
    ensures HasKey(RemoveAt(cells, i), k)
  {
    var j :| 0 <= j < |cells| && cells[j].key == k;
    assert RemoveAt(cells, i)[if j < i then j else j - 1].key == k;
  }

  // Dropping one cell drops one key, and putting it back restores the map.
  lemma {:induction false} MapOfWithout(cells: seq<Cell>, i: nat)
    requires Ascending(cells) && i < |cells|
    ensures Ascending(RemoveAt(cells, i))
    ensures MapOf(RemoveAt(cells, i)) == MapOf(cells) - {cells[i].key}
    ensures MapOf(cells) == MapOf(RemoveAt(cells, i))[cells[i].key := cells[i].payload]
  {
    var rest := RemoveAt(cells, i);
    var m := MapOf(cells) - {cells[i].key};
    AscendingWithout(cells, i);
    forall k ensures k in m <==> HasKey(rest, k) {
      HasKeyWithout(cells, i, k);
      MapOfKeys(cells, k);
    }
    forall j | 0 <= j < |rest| && rest[j].key in m ensures m[rest[j].key] == rest[j].payload {
      var j' := if j < i then j else j + 1;
      assert rest[j] == cells[j'];
      MapOfAt(cells, j');
    }
    MapOfIs(rest, m);
    MapOfAt(cells, i);
  }

  lemma {:induction false} RemoveThenInsert<T>(s: seq<T>, i: nat, x: T)
    requires i <= |s|
    ensures RemoveAt(InsertAt(s, i, x), i) == s && InsertAt(s, i, x)[i] == x
  {
  }

  lemma {:induction false} MapOfInsert(cells: seq<Cell>, i: nat, c: Cell)
    requires i <= |cells| && Ascending(InsertAt(cells, i, c))
    ensures MapOf(InsertAt(cells, i, c)) == MapOf(cells)[c.key := c.payload]
  {
    RemoveThenInsert(cells, i, c);
    MapOfWithout(InsertAt(cells, i, c), i);
  }

  lemma {:induction false} ReplaceThenRemove<T>(s: seq<T>, i: nat, x: T)
    requires i < |s|
    ensures RemoveAt(s[i := x], i) == RemoveAt(s, i)
  {
  }

  lemma {:induction false} AscendingSwap(cells: seq<Cell>, i: nat, c: Cell)
    requires i < |cells| && Ascending(cells) && cells[i].key == c.key
    ensures Ascending(cells[i := c])
  {
  }

  lemma {:induction false} MapOfReplace(cells: seq<Cell>, i: nat, c: Cell)
    requires i < |cells| && Ascending(cells) && cells[i].key == c.key
    ensures Ascending(cells[i := c])
    ensures MapOf(cells[i := c]) == MapOf(cells)[c.key := c.payload]
  {
    ReplaceThenRemove(cells, i, c);
    AscendingSwap(cells, i, c);
    MapOfWithout(cells, i);
    MapOfWithout(cells[i := c], i);
  }
}
