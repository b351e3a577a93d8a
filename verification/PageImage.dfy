// What an 8 KiB page holds, as a value: the header fields plus either the items its slot array
// lists (B-tree nodes) or the body of a single fixed record (every other kind).
//
// The operations below are the specification the byte-level `SlottedPage.Page` is proved against
// and the pages the B-tree is built on. `freeEnd` is part of the value because removal leaves
// holes behind: two pages with equal items may differ in what still fits.
module PageImage {
  import opened Bytes
  import opened Wrappers

  const PAGE_SIZE: nat := 8192
  const HEADER_SIZE: nat := 24
  const SLOT_SIZE: nat := 4

  // Space for items and their slots on an empty page.
  const CAPACITY: nat := PAGE_SIZE - HEADER_SIZE

  type PageId = u32

  const NO_PAGE: PageId := 0

  datatype PageKind = Meta | Leaf | Internal | Overflow | TableHeader | Clog | Free

  type Item = seq<byte>

  datatype Image =
    | Slotted(kind: PageKind, extra: PageId, items: seq<Item>, freeEnd: nat)
    | Record(kind: PageKind, extra: PageId, body: seq<byte>)

  predicate HasSlots(kind: PageKind) {
    kind.Leaf? || kind.Internal? || kind.Free?
  }

  function Zeros(n: nat): (s: seq<byte>)
    ensures |s| == n
  {
    seq(n, _ => 0)
  }

  // `Page::new`.
  function Blank(kind: PageKind): Image {
    if HasSlots(kind) then Slotted(kind, NO_PAGE, [], PAGE_SIZE)
    else Record(kind, NO_PAGE, Zeros(CAPACITY))
  }

  function SetExtra(p: Image, extra: PageId): Image {
    match p
    case Slotted(kind, _, items, freeEnd) => Slotted(kind, extra, items, freeEnd)
    case Record(kind, _, body) => Record(kind, extra, body)
  }

  function ItemCost(len: nat): nat { len + SLOT_SIZE }

  function TotalLen(items: seq<Item>): nat {
    if items == [] then 0 else |items[0]| + TotalLen(items[1..])
  }

  // The space `items` need together, slots included.
  function TotalCost(items: seq<Item>): nat {
    TotalLen(items) + SLOT_SIZE * |items|
  }

  ghost predicate WellFormed(p: Image) {
    match p
    case Slotted(kind, _, items, freeEnd) =>
      && HasSlots(kind)
      && HEADER_SIZE + SLOT_SIZE * |items| <= freeEnd <= PAGE_SIZE
      && TotalLen(items) <= PAGE_SIZE - freeEnd
    case Record(kind, _, body) => !HasSlots(kind) && |body| == CAPACITY
  }

  function FreeSpace(p: Image): nat
    requires p.Slotted?
  {
    var slotEnd := HEADER_SIZE + SLOT_SIZE * |p.items|;
    if p.freeEnd >= slotEnd then p.freeEnd - slotEnd else 0
  }

  function InsertAt<T>(s: seq<T>, i: nat, x: T): seq<T>
    requires i <= |s|
  {
    s[..i] + [x] + s[i..]
  }

  function RemoveAt<T>(s: seq<T>, i: nat): seq<T>
    requires i < |s|
  {
    s[..i] + s[i + 1..]
  }

  // `insert_item`: `None` when the page is full.
  function Insert(p: Image, i: nat, data: Item): Option<Image>
    requires p.Slotted? && i <= |p.items|
  {
    if ItemCost(|data|) > FreeSpace(p) then None
    else if p.freeEnd < |data| then None
    else Some(p.(items := InsertAt(p.items, i, data), freeEnd := p.freeEnd - |data|))
  }

  // `remove_item`: the slot goes, the bytes stay behind as a hole.
  function Remove(p: Image, i: nat): Image
    requires p.Slotted? && i < |p.items|
  {
    p.(items := RemoveAt(p.items, i))
  }

  // `compact`.
  function Compact(p: Image): Image
    requires p.Slotted? && TotalLen(p.items) <= PAGE_SIZE
  {
    p.(freeEnd := PAGE_SIZE - TotalLen(p.items))
  }

  // `replace_item`: `None` when the new data cannot fit even after compaction.
  function Replace(p: Image, i: nat, data: Item): Option<Image>
    requires p.Slotted? && i < |p.items|
    requires WellFormed(p)
  {
    if |data| == |p.items[i]| then Some(p.(items := p.items[i := data]))
    else
      TotalLenRemove(p.items, i);
      var without := Remove(p, i);
      Insert(if ItemCost(|data|) > FreeSpace(without) then Compact(without) else without, i, data)
  }

  // ------------------------------------------------------------------ lengths

  lemma {:induction false} TotalLenAppend(a: seq<Item>, b: seq<Item>)
    ensures TotalLen(a + b) == TotalLen(a) + TotalLen(b)
  {
    if a == [] {
      assert a + b == b;
    } else {
      assert (a + b)[1..] == a[1..] + b;
      TotalLenAppend(a[1..], b);
    }
  }

  lemma TotalLenOne(x: Item)
    ensures TotalLen([x]) == |x|
  {
    assert [x][1..] == [];
  }

  lemma TotalLenInsert(s: seq<Item>, i: nat, x: Item)
    requires i <= |s|
    ensures TotalLen(InsertAt(s, i, x)) == TotalLen(s) + |x|
  {
    assert s == s[..i] + s[i..];
    TotalLenAppend(s[..i], s[i..]);
    TotalLenAppend(s[..i] + [x], s[i..]);
    TotalLenAppend(s[..i], [x]);
    TotalLenOne(x);
  }

  lemma TotalLenRemove(s: seq<Item>, i: nat)
    requires i < |s|
    ensures TotalLen(RemoveAt(s, i)) == TotalLen(s) - |s[i]|
  {
    assert s == InsertAt(RemoveAt(s, i), i, s[i]);
    TotalLenInsert(RemoveAt(s, i), i, s[i]);
  }

  lemma TotalLenUpdate(s: seq<Item>, i: nat, x: Item)
    requires i < |s|
    ensures TotalLen(s[i := x]) == TotalLen(s) - |s[i]| + |x|
  {
    assert s[i := x] == InsertAt(RemoveAt(s, i), i, x);
    TotalLenRemove(s, i);
    TotalLenInsert(RemoveAt(s, i), i, x);
  }

  // ------------------------------------------------- what the operations keep

  lemma InsertKeepsLayout(p: Image, i: nat, data: Item)
    requires p.Slotted? && WellFormed(p) && i <= |p.items|
    ensures Insert(p, i, data).Some? <==> ItemCost(|data|) <= FreeSpace(p)
    ensures Insert(p, i, data).Some? ==> WellFormed(Insert(p, i, data).value)
  {
    TotalLenInsert(p.items, i, data);
  }

  lemma RemoveKeepsLayout(p: Image, i: nat)
    requires p.Slotted? && WellFormed(p) && i < |p.items|
    ensures WellFormed(Remove(p, i))
  {
    TotalLenRemove(p.items, i);
  }

  // Compaction never overflows the page, and afterwards no byte of it is wasted.
  lemma CompactReclaimsEverything(p: Image)
    requires p.Slotted? && WellFormed(p)
    ensures WellFormed(Compact(p)) && Compact(p).items == p.items
    ensures FreeSpace(Compact(p)) == CAPACITY - TotalCost(p.items)
    ensures FreeSpace(Compact(p)) >= FreeSpace(p)
  {
  }

  // A replacement succeeds exactly when the item keeps its length or the page, stripped of holes,
  // has room for it; when it succeeds only that item changes.
  lemma ReplaceExactly(p: Image, i: nat, data: Item)
    requires p.Slotted? && WellFormed(p) && i < |p.items|
    ensures Replace(p, i, data).Some? <==>
            || |data| == |p.items[i]|
            || TotalCost(RemoveAt(p.items, i)) + ItemCost(|data|) <= CAPACITY
    ensures Replace(p, i, data).Some? ==>
            && WellFormed(Replace(p, i, data).value)
            && Replace(p, i, data).value.items == p.items[i := data]
            && Replace(p, i, data).value.kind == p.kind
            && Replace(p, i, data).value.extra == p.extra
  {
    if |data| == |p.items[i]| {
      TotalLenUpdate(p.items, i, data);
    } else {
      var without := Remove(p, i);
      RemoveKeepsLayout(p, i);
      CompactReclaimsEverything(without);
      var room := if ItemCost(|data|) > FreeSpace(without) then Compact(without) else without;
      InsertKeepsLayout(room, i, data);
      assert InsertAt(RemoveAt(p.items, i), i, data) == p.items[i := data];
    }
  }
}
