// The 8 KiB page as bytes: header fields, a slot array growing up, items growing down.
module SlottedPage {
  import opened Bytes
  import opened PageImage
  import opened Wrappers

  const KIND_AT: nat := 12
  const COUNT_AT: nat := 14
  const FREE_AT: nat := 16
  const EXTRA_AT: nat := 20

  type Raw = b: seq<byte> | |b| == PAGE_SIZE witness Zeros(PAGE_SIZE)

  // ------------------------------------------------------------- fields

  function Field16(b: Raw, at: nat): nat
    requires at + 2 <= PAGE_SIZE
  {
    (b[at] as int) + 256 * (b[at + 1] as int)
  }

  // A 16-bit field as written: `v as u16` drops the high bits.
  function LE16(v: nat): (s: seq<byte>)
    ensures |s| == 2
  {
    [v % 256, v / 256 % 256]
  }

  function SlotCount(b: Raw): nat { Field16(b, COUNT_AT) }

  function FreeEnd(b: Raw): nat { Field16(b, FREE_AT) }

  datatype Slot = Slot(offset: nat, len: nat)

  function SlotBase(i: nat): nat { HEADER_SIZE + SLOT_SIZE * i }

  function SlotAt(b: Raw, i: nat): Slot
    requires SlotBase(i + 1) <= PAGE_SIZE
  {
    Slot(Field16(b, SlotBase(i)), Field16(b, SlotBase(i) + 2))
  }

  function KindOf(n: byte): Option<PageKind> {
    match n
    case 0 => Some(Meta)
    case 1 => Some(Leaf)
    case 2 => Some(Internal)
    case 3 => Some(Overflow)
    case 4 => Some(TableHeader)
    case 5 => Some(Clog)
    case 6 => Some(Free)
    case _ => None
  }

  function KindByte(kind: PageKind): (n: byte)
    ensures KindOf(n) == Some(kind)
  {
    match kind
    case Meta => 0
    case Leaf => 1
    case Internal => 2
    case Overflow => 3
    case TableHeader => 4
    case Clog => 5
    case Free => 6
  }

  // -------------------------------------------------------------- slots

  // Runs of slots, apart from the bytes they describe.
  ghost predicate AllInside(slots: seq<Slot>, lo: nat, hi: nat) {
    forall i :: 0 <= i < |slots| ==> lo <= slots[i].offset && slots[i].offset + slots[i].len <= hi
  }

  ghost predicate Disjoint(s: Slot, t: Slot) {
    s.offset + s.len <= t.offset || t.offset + t.len <= s.offset
  }

  ghost predicate AllApart(slots: seq<Slot>) {
    forall i, j :: 0 <= i < j < |slots| ==> Disjoint(slots[i], slots[j])
  }

  // The items a run of slots lists.
  ghost function Cut(b: Raw, slots: seq<Slot>): (items: seq<Item>)
    requires AllInside(slots, 0, PAGE_SIZE)
    ensures |items| == |slots|
  {
    seq(|slots|, i requires 0 <= i < |slots| => b[slots[i].offset..slots[i].offset + slots[i].len])
  }

  ghost predicate SameFrom(b: Raw, b': Raw, lo: nat) {
    forall i :: lo <= i < PAGE_SIZE ==> b'[i] == b[i]
  }

  lemma {:induction false} InsideInsert(slots: seq<Slot>, i: nat, s: Slot, lo: nat, lo': nat, hi: nat)
    requires AllInside(slots, lo, hi) && lo' <= lo && i <= |slots| && lo' <= s.offset && s.offset + s.len <= hi
    ensures AllInside(InsertAt(slots, i, s), lo', hi)
  {
  }

  lemma {:induction false} ApartInsert(slots: seq<Slot>, i: nat, s: Slot, lo: nat)
    requires AllApart(slots) && AllInside(slots, lo, PAGE_SIZE) && i <= |slots| && s.offset + s.len <= lo
    ensures AllApart(InsertAt(slots, i, s))
  {
    var all := InsertAt(slots, i, s);
    forall j, k | 0 <= j < k < |all| ensures Disjoint(all[j], all[k]) {
      assert j != i ==> all[j] == slots[if j < i then j else j - 1];
      assert k != i ==> all[k] == slots[if k < i then k else k - 1];
    }
  }

  lemma {:induction false} SliceSame(b: Raw, b': Raw, lo: nat, x: nat, y: nat)
    requires SameFrom(b, b', lo) && lo <= x <= y <= PAGE_SIZE
    ensures b'[x..y] == b[x..y]
  {
  }

  lemma {:induction false} CutSame(b: Raw, b': Raw, slots: seq<Slot>, lo: nat)
    requires AllInside(slots, lo, PAGE_SIZE) && SameFrom(b, b', lo)
    ensures Cut(b', slots) == Cut(b, slots)
  {
    forall j | 0 <= j < |slots| ensures Cut(b', slots)[j] == Cut(b, slots)[j] {
      SliceSame(b, b', lo, slots[j].offset, slots[j].offset + slots[j].len);
    }
  }

  lemma {:induction false} CutInsert(b: Raw, slots: seq<Slot>, i: nat, s: Slot)
    requires AllInside(slots, 0, PAGE_SIZE) && i <= |slots| && s.offset + s.len <= PAGE_SIZE
    ensures AllInside(InsertAt(slots, i, s), 0, PAGE_SIZE)
    ensures Cut(b, InsertAt(slots, i, s)) == InsertAt(Cut(b, slots), i, b[s.offset..s.offset + s.len])
  {
    InsideInsert(slots, i, s, 0, 0, PAGE_SIZE);
  }

  lemma {:induction false} RemoveSlot(b: Raw, slots: seq<Slot>, i: nat, lo: nat)
    requires AllApart(slots) && AllInside(slots, lo, PAGE_SIZE) && i < |slots|
    ensures AllApart(RemoveAt(slots, i)) && AllInside(RemoveAt(slots, i), lo, PAGE_SIZE)
    ensures Cut(b, RemoveAt(slots, i)) == RemoveAt(Cut(b, slots), i)
  {
  }

  // ------------------------------------------------------------- layout

  ghost function Slots(b: Raw): (slots: seq<Slot>)
    requires SlotBase(SlotCount(b)) <= PAGE_SIZE
    ensures |slots| == SlotCount(b)
  {
    seq(SlotCount(b), i requires 0 <= i < SlotCount(b) => SlotAt(b, i))
  }

  // What `validate_layout` accepts.
  ghost predicate InBounds(b: Raw) {
    SlotBase(SlotCount(b)) <= FreeEnd(b) <= PAGE_SIZE && AllInside(Slots(b), FreeEnd(b), PAGE_SIZE)
  }

  ghost predicate Layout(b: Raw) {
    InBounds(b) && AllApart(Slots(b)) && KindOf(b[KIND_AT]).Some?
  }

  ghost function View(b: Raw): Image
    requires Layout(b)
  {
    FromLEBound(b[EXTRA_AT..EXTRA_AT + 4]);
    Widths();
    Slotted(KindOf(b[KIND_AT]).value, FromLE(b[EXTRA_AT..EXTRA_AT + 4]), Cut(b, Slots(b)), FreeEnd(b))
  }

  // ------------------------------------------------------------- writing

  function Put(b: Raw, at: nat, data: seq<byte>): Raw
    requires at + |data| <= PAGE_SIZE
  {
    b[..at] + data + b[at + |data|..]
  }

  // Only bytes `lo` to `hi` may differ.
  ghost predicate Within(b: Raw, b': Raw, lo: nat, hi: nat)
  {
    forall i :: 0 <= i < PAGE_SIZE && !(lo <= i < hi) ==> b'[i] == b[i]
  }

  lemma {:induction false} PutWithin(b: Raw, at: nat, data: seq<byte>)
    requires at + |data| <= PAGE_SIZE
    ensures Within(b, Put(b, at, data), at, at + |data|)
    ensures Put(b, at, data)[at..at + |data|] == data
  {
  }

  lemma {:induction false} PutField(b: Raw, at: nat, v: nat)
    requires at + 2 <= PAGE_SIZE && v < U16
    ensures Field16(Put(b, at, LE16(v)), at) == v
    ensures Within(b, Put(b, at, LE16(v)), at, at + 2)
  {
  }

  lemma {:induction false} FieldKept(b: Raw, b': Raw, lo: nat, hi: nat, at: nat)
    requires Within(b, b', lo, hi) && at + 2 <= PAGE_SIZE && (at + 2 <= lo || hi <= at)
    ensures Field16(b', at) == Field16(b, at)
  {
  }

  lemma {:induction false} SlotKept(b: Raw, b': Raw, lo: nat, hi: nat, i: nat)
    requires Within(b, b', lo, hi) && SlotBase(i + 1) <= PAGE_SIZE && (SlotBase(i + 1) <= lo || hi <= SlotBase(i))
    ensures SlotAt(b', i) == SlotAt(b, i)
  {
  }

  lemma {:induction false} SliceKept(b: Raw, b': Raw, lo: nat, hi: nat, x: nat, y: nat)
    requires Within(b, b', lo, hi) && x <= y <= PAGE_SIZE && (y <= lo || hi <= x)
    ensures b'[x..y] == b[x..y]
  {
  }

  // ----------------------------------------------------------- item area

  ghost function Cover(lo: nat, hi: nat): (c: set<nat>)
    ensures forall p :: p in c <==> lo <= p < hi
    decreases hi
  {
    if lo >= hi then {} else Cover(lo, hi - 1) + {hi - 1}
  }

  lemma {:induction false} CoverSize(lo: nat, hi: nat)
    requires lo <= hi
    ensures |Cover(lo, hi)| == hi - lo
    decreases hi
  {
    if lo < hi {
      CoverSize(lo, hi - 1);
    }
  }

  ghost function SumLen(slots: seq<Slot>): nat {
    if slots == [] then 0 else SumLen(slots[..|slots| - 1]) + slots[|slots| - 1].len
  }

  ghost function Extent(s: Slot): set<nat> { Cover(s.offset, s.offset + s.len) }

  // The positions a run of slots takes up.
  ghost function Taken(slots: seq<Slot>): set<nat> {
    if slots == [] then {} else Taken(slots[..|slots| - 1]) + Extent(slots[|slots| - 1])
  }

  lemma {:induction false} TakenBy(slots: seq<Slot>, p: nat) returns (i: nat)
    requires p in Taken(slots)
    ensures i < |slots| && p in Extent(slots[i])
  {
    var n := |slots| - 1;
    if p in Extent(slots[n]) {
      i := n;
    } else {
      i := TakenBy(slots[..n], p);
    }
  }

  lemma {:induction false} LastDisjoint(slots: seq<Slot>)
    requires AllApart(slots) && slots != []
    ensures Taken(slots[..|slots| - 1]) !! Extent(slots[|slots| - 1])
  {
    var n := |slots| - 1;
    forall p | p in Taken(slots[..n]) ensures p !in Extent(slots[n]) {
      var i := TakenBy(slots[..n], p);
      assert Disjoint(slots[i], slots[n]);
    }
  }

  lemma {:induction false} TakenSize(slots: seq<Slot>)
    requires AllApart(slots)
    ensures |Taken(slots)| == SumLen(slots)
  {
    if slots != [] {
      var n := |slots| - 1;
      TakenSize(slots[..n]);
      LastDisjoint(slots);
      CoverSize(slots[n].offset, slots[n].offset + slots[n].len);
    }
  }

  lemma {:induction false} SubsetSize(a: set<nat>, b: set<nat>)
    requires a <= b
    ensures |a| <= |b|
  {
    if a != {} {
      var x :| x in a;
      SubsetSize(a - {x}, b - {x});
    }
  }

  lemma {:induction false} SlotsFit(slots: seq<Slot>, lo: nat, hi: nat)
    requires AllInside(slots, lo, hi) && AllApart(slots) && lo <= hi
    ensures SumLen(slots) <= hi - lo
  {
    TakenSize(slots);
    forall p | p in Taken(slots) ensures p in Cover(lo, hi) {
      var i := TakenBy(slots, p);
    }
    SubsetSize(Taken(slots), Cover(lo, hi));
    CoverSize(lo, hi);
  }

  lemma {:induction false} LengthsAgree(b: Raw, slots: seq<Slot>)
    requires AllInside(slots, 0, PAGE_SIZE)
    ensures TotalLen(Cut(b, slots)) == SumLen(slots)
  {
    if slots != [] {
      var n := |slots| - 1;
      LengthsAgree(b, slots[..n]);
      var items := Cut(b, slots);
      assert items == Cut(b, slots[..n]) + [items[n]];
      TotalLenAppend(Cut(b, slots[..n]), [items[n]]);
      TotalLenOne(items[n]);
    }
  }

  // Items that lie apart inside the item area fit it: the page is as well formed as its image.
  lemma {:induction false} ViewWellFormed(b: Raw)
    requires Layout(b) && HasSlots(View(b).kind)
    ensures WellFormed(View(b))
  {
    LengthsAgree(b, Slots(b));
    SlotsFit(Slots(b), FreeEnd(b), PAGE_SIZE);
  }

  // --------------------------------------------------------------- edits

  // Everything in the header but the counters.
  ghost predicate SameHeader(b: Raw, b': Raw) {
    b'[KIND_AT] == b[KIND_AT] && b'[EXTRA_AT..EXTRA_AT + 4] == b[EXTRA_AT..EXTRA_AT + 4]
  }

  // `b'` is `b` with `data` stored at `offset` and listed at slot `index`.
  ghost predicate Inserted(b: Raw, b': Raw, index: nat, offset: nat, data: Item)
    requires SlotBase(SlotCount(b)) <= PAGE_SIZE && index <= SlotCount(b) && offset + |data| <= PAGE_SIZE
  {
    && SlotBase(SlotCount(b')) <= PAGE_SIZE && Slots(b') == InsertAt(Slots(b), index, Slot(offset, |data|))
    && FreeEnd(b') == offset && b'[offset..offset + |data|] == data
    && SameFrom(b, b', FreeEnd(b)) && SameHeader(b, b')
  }

  // An insertion that fits refines the insertion into the sequence of items.
  lemma {:induction false} InsertedView(b: Raw, b': Raw, index: nat, data: Item)
    requires Layout(b) && index <= SlotCount(b) && SlotBase(SlotCount(b) + 1) + |data| <= FreeEnd(b)
    requires Inserted(b, b', index, FreeEnd(b) - |data|, data)
    ensures Layout(b') && Insert(View(b), index, data) == Some(View(b'))
  {
    var s := Slot(FreeEnd(b) - |data|, |data|);
    InsideInsert(Slots(b), index, s, FreeEnd(b), s.offset, PAGE_SIZE);
    ApartInsert(Slots(b), index, s, FreeEnd(b));
    CutSame(b, b', Slots(b), FreeEnd(b));
    CutInsert(b', Slots(b), index, s);
  }

  // `b'` is `b` without slot `index`; no item moved.
  ghost predicate Removed(b: Raw, b': Raw, index: nat)
    requires SlotBase(SlotCount(b)) <= PAGE_SIZE && index < SlotCount(b)
  {
    && SlotBase(SlotCount(b')) <= PAGE_SIZE && Slots(b') == RemoveAt(Slots(b), index)
    && FreeEnd(b') == FreeEnd(b) && SameFrom(b, b', FreeEnd(b)) && SameHeader(b, b')
  }

  lemma {:induction false} RemovedView(b: Raw, b': Raw, index: nat)
    requires Layout(b) && index < SlotCount(b) && Removed(b, b', index)
    ensures Layout(b') && View(b') == Remove(View(b), index)
  {
    CutSame(b, b', Slots(b), FreeEnd(b));
    RemoveSlot(b', Slots(b), index, FreeEnd(b));
  }

  lemma {:induction false} CutOverwritten(b: Raw, b': Raw, slots: seq<Slot>, i: nat, data: Item)
    requires AllApart(slots) && AllInside(slots, 0, PAGE_SIZE) && i < |slots| && slots[i].len == |data|
    requires b' == Put(b, slots[i].offset, data)
    ensures Cut(b', slots) == Cut(b, slots)[i := data]
  {
    PutWithin(b, slots[i].offset, data);
    forall j | 0 <= j < |slots| ensures Cut(b', slots)[j] == Cut(b, slots)[i := data][j] {
      if j != i {
        assert if j < i then Disjoint(slots[j], slots[i]) else Disjoint(slots[i], slots[j]);
        SliceKept(b, b', slots[i].offset, slots[i].offset + |data|, slots[j].offset, slots[j].offset + slots[j].len);
      }
    }
  }

  lemma {:induction false} SlotsKept(b: Raw, b': Raw, lo: nat, hi: nat)
    requires Within(b, b', lo, hi) && SlotBase(SlotCount(b)) <= lo <= PAGE_SIZE
    ensures SlotCount(b') == SlotCount(b) && FreeEnd(b') == FreeEnd(b) && SameHeader(b, b')
    ensures Slots(b') == Slots(b)
  {
    forall i | 0 <= i < SlotCount(b) ensures SlotAt(b', i) == SlotAt(b, i) {
      SlotKept(b, b', lo, hi, i);
    }
  }

  // Overwriting an item in place, at equal length, reaches no other item.
  lemma {:induction false} OverwrittenView(b: Raw, index: nat, data: Item)
    requires Layout(b) && index < SlotCount(b) && Slots(b)[index].len == |data|
    ensures var b' := Put(b, Slots(b)[index].offset, data);
            Layout(b') && View(b') == View(b).(items := View(b).items[index := data])
  {
    var s := Slots(b)[index];
    var b' := Put(b, s.offset, data);
    PutWithin(b, s.offset, data);
    SlotsKept(b, b', s.offset, s.offset + s.len);
    CutOverwritten(b, b', Slots(b), index, data);
  }

  // ------------------------------------------------------------ the page

  lemma {:induction false} SlotWritten(b: Raw, b1: Raw, b2: Raw, i: nat, s: Slot)
    requires SlotBase(i + 1) <= PAGE_SIZE && s.offset < U16 && s.len < U16
    requires b1 == Put(b, SlotBase(i), LE16(s.offset)) && b2 == Put(b1, SlotBase(i) + 2, LE16(s.len))
    ensures SlotAt(b2, i) == s && Within(b, b2, SlotBase(i), SlotBase(i + 1))
  {
    PutField(b, SlotBase(i), s.offset);
    PutField(b1, SlotBase(i) + 2, s.len);
    FieldKept(b1, b2, SlotBase(i) + 2, SlotBase(i) + 4, SlotBase(i));
  }

  lemma {:induction false} FieldBound(b: Raw, at: nat)
    requires at + 2 <= PAGE_SIZE
    ensures Field16(b, at) < U16
  {
  }

  // The five writes of an insertion, put together.
  lemma {:induction false} InsertWrites(b0: Raw, b1: Raw, b2: Raw, b3: Raw, b4: Raw, b5: Raw, index: nat, offset: nat,
                                        data: Item)
    requires SlotBase(SlotCount(b0) + 1) <= offset && offset + |data| <= FreeEnd(b0) <= PAGE_SIZE
             && index <= SlotCount(b0)
    requires Within(b0, b1, offset, offset + |data|) && b1[offset..offset + |data|] == data
    requires Within(b1, b2, FREE_AT, FREE_AT + 2) && Field16(b2, FREE_AT) == offset
    requires Within(b2, b3, SlotBase(index), SlotBase(SlotCount(b0) + 1))
    requires forall j :: index <= j < SlotCount(b0) ==> SlotAt(b3, j + 1) == SlotAt(b2, j)
    requires Within(b3, b4, SlotBase(index), SlotBase(index + 1)) && SlotAt(b4, index) == Slot(offset, |data|)
    requires Within(b4, b5, COUNT_AT, COUNT_AT + 2) && Field16(b5, COUNT_AT) == SlotCount(b0) + 1
    ensures Inserted(b0, b5, index, offset, data)
  {
    var count := SlotCount(b0);
    forall i | 0 <= i <= count ensures SlotAt(b5, i) == InsertAt(Slots(b0), index, Slot(offset, |data|))[i] {
      SlotKept(b4, b5, COUNT_AT, COUNT_AT + 2, i);
      if i != index {
        SlotKept(b3, b4, SlotBase(index), SlotBase(index + 1), i);
        var k := if i < index then i else i - 1;
        SlotKept(b0, b1, offset, offset + |data|, k);
        SlotKept(b1, b2, FREE_AT, FREE_AT + 2, k);
        if i < index {
          SlotKept(b2, b3, SlotBase(index), SlotBase(count + 1), i);
        }
      }
    }
    InsertFrame(b0, b1, b2, b3, b4, b5, index, offset, data);
  }

  lemma {:induction false} InsertFrame(b0: Raw, b1: Raw, b2: Raw, b3: Raw, b4: Raw, b5: Raw, index: nat, offset: nat,
                                       data: Item)
    requires SlotBase(SlotCount(b0) + 1) <= offset && offset + |data| <= FreeEnd(b0) <= PAGE_SIZE
             && index <= SlotCount(b0)
    requires Within(b0, b1, offset, offset + |data|)
    requires Within(b1, b2, FREE_AT, FREE_AT + 2)
    requires Within(b2, b3, SlotBase(index), SlotBase(SlotCount(b0) + 1))
    requires Within(b3, b4, SlotBase(index), SlotBase(index + 1))
    requires Within(b4, b5, COUNT_AT, COUNT_AT + 2)
    ensures SameFrom(b0, b5, FreeEnd(b0)) && SameHeader(b0, b5)
    ensures Field16(b5, FREE_AT) == Field16(b2, FREE_AT)
    ensures b5[offset..offset + |data|] == b1[offset..offset + |data|]
  {
  }

  // The two writes of a removal.
  lemma {:induction false} RemoveWrites(b0: Raw, b1: Raw, b2: Raw, index: nat)
    requires SlotBase(SlotCount(b0)) <= FreeEnd(b0) <= PAGE_SIZE && index < SlotCount(b0)
    requires Within(b0, b1, SlotBase(index), SlotBase(SlotCount(b0)))
    requires forall j :: index <= j < SlotCount(b0) - 1 ==> SlotAt(b1, j) == SlotAt(b0, j + 1)
    requires Within(b1, b2, COUNT_AT, COUNT_AT + 2) && Field16(b2, COUNT_AT) == SlotCount(b0) - 1
    ensures Removed(b0, b2, index)
  {
    var count := SlotCount(b0);
    forall i | 0 <= i < count - 1 ensures SlotAt(b2, i) == RemoveAt(Slots(b0), index)[i] {
      SlotKept(b1, b2, COUNT_AT, COUNT_AT + 2, i);
      if i < index {
        SlotKept(b0, b1, SlotBase(index), SlotBase(count), i);
      }
    }
  }

  // Total length of what a page lists, whatever kind it is.
  lemma {:induction false} ItemsFit(b: Raw)
    requires Layout(b)
    ensures TotalLen(View(b).items) <= PAGE_SIZE - FreeEnd(b)
  {
    LengthsAgree(b, Slots(b));
    SlotsFit(Slots(b), FreeEnd(b), PAGE_SIZE);
  }

  lemma {:induction false} PrefixFits(items: seq<Item>, i: nat)
    requires i < |items|
    ensures TotalLen(items[..i]) + |items[i]| <= TotalLen(items)
    ensures TotalLen(items[..i + 1]) == TotalLen(items[..i]) + |items[i]|
    ensures InsertAt(items[..i], i, items[i]) == items[..i + 1]
  {
    assert items[..i + 1] == items[..i] + [items[i]];
    TotalLenAppend(items[..i], [items[i]]);
    TotalLenOne(items[i]);
    assert items == items[..i + 1] + items[i + 1..];
    TotalLenAppend(items[..i + 1], items[i + 1..]);
  }

  // A page with no slots and all its space back.
  lemma {:induction false} EmptiedView(b: Raw, b': Raw)
    requires Layout(b) && Within(b, b', COUNT_AT, FREE_AT + 2) && SlotCount(b') == 0 && FreeEnd(b') == PAGE_SIZE
    ensures Layout(b') && View(b') == Slotted(View(b).kind, View(b).extra, [], PAGE_SIZE)
  {
    assert b'[EXTRA_AT..EXTRA_AT + 4] == b[EXTRA_AT..EXTRA_AT + 4];
    assert Slots(b') == [];
  }

  lemma {:induction false} Restored(b: Raw, snapshot: Raw)
    ensures Put(b, 0, snapshot) == snapshot
  {
  }

  lemma {:induction false} NewView(b: Raw, kind: PageKind)
    requires b[KIND_AT] == KindByte(kind) && FreeEnd(b) == PAGE_SIZE
    requires forall i :: 0 <= i < PAGE_SIZE && i != KIND_AT && !(FREE_AT <= i < FREE_AT + 2) ==> b[i] == 0
    ensures Layout(b) && View(b) == Slotted(kind, NO_PAGE, [], PAGE_SIZE)
  {
    assert Slots(b) == [];
    ZeroField(b[EXTRA_AT..EXTRA_AT + 4]);
  }

  lemma {:induction false} ZeroField(s: seq<byte>)
    requires forall i :: 0 <= i < |s| ==> s[i] == 0
    ensures FromLE(s) == 0
  {
    if s != [] {
      ZeroField(s[1..]);
    }
  }

  function SaturatingSub(a: nat, b: nat): nat { if a >= b then a - b else 0 }

  class Page {
    const bytes: array<byte>

    constructor (kind: PageKind)
      ensures Sized() && fresh(bytes)
      ensures Layout(Now()) && View(Now()) == Slotted(kind, NO_PAGE, [], PAGE_SIZE)
    {
      bytes := new byte[PAGE_SIZE](_ => 0);
      new;
      bytes[KIND_AT] := KindByte(kind);
      WriteField(FREE_AT, PAGE_SIZE);
      NewView(Now(), kind);
    }

    ghost predicate Sized()
      reads this
    {
      bytes.Length == PAGE_SIZE
    }

    ghost function Now(): Raw
      requires Sized()
      reads this, bytes
    {
      bytes[..]
    }

    method Write(at: nat, data: seq<byte>)
      requires Sized() && at + |data| <= PAGE_SIZE
      modifies bytes
      ensures Now() == Put(old(Now()), at, data)
    {
      forall k | 0 <= k < |data| {
        bytes[at + k] := data[k];
      }
    }

    method WriteSlot(i: nat, s: Slot)
      requires Sized() && SlotBase(i + 1) <= PAGE_SIZE && s.offset < U16 && s.len < U16
      modifies bytes
      ensures SlotAt(Now(), i) == s && Within(old(Now()), Now(), SlotBase(i), SlotBase(i + 1))
    {
      ghost var b := Now();
      Write(SlotBase(i), LE16(s.offset));
      ghost var b1 := Now();
      Write(SlotBase(i) + 2, LE16(s.len));
      SlotWritten(b, b1, Now(), i, s);
    }

    method WriteField(at: nat, v: nat)
      requires Sized() && at + 2 <= PAGE_SIZE && v < U16
      modifies bytes
      ensures Field16(Now(), at) == v && Within(old(Now()), Now(), at, at + 2)
    {
      PutField(Now(), at, v);
      Write(at, LE16(v));
    }

    // Makes room for a slot at `index`.
    method ShiftUp(index: nat, count: nat)
      requires Sized() && index <= count && SlotBase(count + 1) <= PAGE_SIZE
      modifies bytes
      ensures Within(old(Now()), Now(), SlotBase(index), SlotBase(count + 1))
      ensures forall j :: index <= j < count ==> SlotAt(Now(), j + 1) == SlotAt(old(Now()), j)
    {
      ghost var b := Now();
      for i := count downto index
        invariant Within(b, Now(), SlotBase(i + 1), SlotBase(count + 1))
        invariant forall j :: i <= j < count ==> SlotAt(Now(), j + 1) == SlotAt(b, j)
      {
        ghost var mid := Now();
        SlotKept(b, mid, SlotBase(i + 2), SlotBase(count + 1), i);
        FieldBound(mid, SlotBase(i));
        FieldBound(mid, SlotBase(i) + 2);
        WriteSlot(i + 1, SlotAt(bytes[..], i));
        forall j | i + 1 <= j < count ensures SlotAt(Now(), j + 1) == SlotAt(b, j) {
          SlotKept(mid, Now(), SlotBase(i + 1), SlotBase(i + 2), j + 1);
        }
      }
    }

    // Closes the gap at `index`.
    method ShiftDown(index: nat, count: nat)
      requires Sized() && index < count && SlotBase(count) <= PAGE_SIZE
      modifies bytes
      ensures Within(old(Now()), Now(), SlotBase(index), SlotBase(count))
      ensures forall j :: index <= j < count - 1 ==> SlotAt(Now(), j) == SlotAt(old(Now()), j + 1)
    {
      ghost var b := Now();
      for i := index + 1 to count
        invariant Within(b, Now(), SlotBase(index), SlotBase(i - 1))
        invariant forall j :: index <= j < i - 1 ==> SlotAt(Now(), j) == SlotAt(b, j + 1)
      {
        ghost var mid := Now();
        SlotKept(b, mid, SlotBase(index), SlotBase(i - 1), i);
        FieldBound(mid, SlotBase(i));
        FieldBound(mid, SlotBase(i) + 2);
        WriteSlot(i - 1, SlotAt(bytes[..], i));
        forall j | index <= j < i - 1 ensures SlotAt(Now(), j) == SlotAt(b, j + 1) {
          SlotKept(mid, Now(), SlotBase(i - 1), SlotBase(i), j);
        }
      }
    }

    method StoreItem(index: nat, offset: nat, data: Item)
      requires Sized() && SlotBase(SlotCount(Now()) + 1) <= offset && offset + |data| <= FreeEnd(Now()) <= PAGE_SIZE
      requires index <= SlotCount(Now())
      modifies bytes
      ensures Inserted(old(Now()), Now(), index, offset, data)
    {
      ghost var b0 := Now();
      var count := SlotCount(bytes[..]);
      PutWithin(b0, offset, data);
      Write(offset, data);
      ghost var b1 := Now();
      WriteField(FREE_AT, offset);
      ghost var b2 := Now();
      ShiftUp(index, count);
      ghost var b3 := Now();
      WriteSlot(index, Slot(offset, |data|));
      ghost var b4 := Now();
      WriteField(COUNT_AT, count + 1);
      InsertWrites(b0, b1, b2, b3, b4, Now(), index, offset, data);
    }

    method Room() returns (n: nat)
      requires Sized() && Layout(Now())
      ensures n == FreeSpace(View(Now()))
    {
      var count, free := SlotCount(bytes[..]), FreeEnd(bytes[..]);
      n := SaturatingSub(free, SlotBase(count));
    }

    // `insert_item`: false, and nothing written, if the page is full.
    method InsertItem(index: nat, data: Item) returns (ok: bool)
      requires Sized() && Layout(Now()) && index <= SlotCount(Now())
      modifies bytes
      ensures Layout(Now())
      ensures Insert(old(View(Now())), index, data) == if ok then Some(View(Now())) else None
      ensures !ok ==> Now() == old(Now())
    {
      ghost var b0 := Now();
      var room := Room();
      if ItemCost(|data|) > room {
        return false;
      }
      StoreItem(index, FreeEnd(bytes[..]) - |data|, data);
      InsertedView(b0, Now(), index, data);
      return true;
    }

    method RemoveItem(index: nat)
      requires Sized() && Layout(Now()) && index < SlotCount(Now())
      modifies bytes
      ensures Layout(Now()) && View(Now()) == Remove(old(View(Now())), index)
    {
      ghost var b0 := Now();
      var count := SlotCount(bytes[..]);
      FieldBound(b0, COUNT_AT);
      ShiftDown(index, count);
      ghost var b1 := Now();
      WriteField(COUNT_AT, count - 1);
      RemoveWrites(b0, b1, Now(), index);
      RemovedView(b0, Now(), index);
    }

    method CollectItems() returns (items: seq<Item>)
      requires Sized() && Layout(Now())
      ensures items == View(Now()).items
    {
      items := [];
      for i := 0 to SlotCount(bytes[..])
        invariant items == Cut(Now(), Slots(Now()))[..i]
      {
        var s := SlotAt(bytes[..], i);
        assert s == Slots(Now())[i];
        items := items + [bytes[s.offset..s.offset + s.len]];
      }
    }

    method Empty()
      requires Sized() && Layout(Now())
      modifies bytes
      ensures Layout(Now()) && View(Now()) == Slotted(old(View(Now())).kind, old(View(Now())).extra, [], PAGE_SIZE)
    {
      ghost var b0 := Now();
      WriteField(FREE_AT, PAGE_SIZE);
      WriteField(COUNT_AT, 0);
      EmptiedView(b0, Now());
    }

    // Items that fitted a page before fit it again, one after the other.
    method Refill(items: seq<Item>, ghost limit: nat)
      requires Sized() && Layout(Now()) && View(Now()).items == [] && FreeEnd(Now()) == PAGE_SIZE
      requires SlotBase(|items|) <= limit <= PAGE_SIZE && TotalLen(items) <= PAGE_SIZE - limit
      modifies bytes
      ensures Layout(Now())
      ensures View(Now()) == Slotted(old(View(Now())).kind, old(View(Now())).extra, items, PAGE_SIZE - TotalLen(items))
    {
      ghost var kind, extra := View(Now()).kind, View(Now()).extra;
      for i := 0 to |items|
        invariant Layout(Now()) && TotalLen(items[..i]) <= PAGE_SIZE - limit
        invariant View(Now()) == Slotted(kind, extra, items[..i], PAGE_SIZE - TotalLen(items[..i]))
      {
        PrefixFits(items, i);
        var inserted := InsertItem(i, items[i]);
        assert inserted;
      }
      assert items[..|items|] == items;
    }

    // `compact`: the holes go, the items and their order stay.
    method CompactItems()
      requires Sized() && Layout(Now())
      modifies bytes
      ensures Layout(Now())
      ensures TotalLen(old(View(Now())).items) <= PAGE_SIZE && View(Now()) == Compact(old(View(Now())))
    {
      ghost var limit := FreeEnd(Now());
      ItemsFit(Now());
      var items := CollectItems();
      Empty();
      Refill(items, limit);
    }

    // Takes an item out, and the holes too if the new data needs them.
    method MakeRoom(index: nat, len: nat)
      requires Sized() && Layout(Now()) && index < SlotCount(Now())
      modifies bytes
      ensures Layout(Now()) && TotalLen(Remove(old(View(Now())), index).items) <= PAGE_SIZE
      ensures var without := Remove(old(View(Now())), index);
              View(Now()) == if ItemCost(len) > FreeSpace(without) then Compact(without) else without
    {
      RemoveItem(index);
      ItemsFit(Now());
      var room := Room();
      if ItemCost(len) > room {
        CompactItems();
      }
    }

    // An item of another length: out, and in again; or everything back as it was.
    method MoveItem(index: nat, data: Item) returns (ok: bool)
      requires Sized() && Layout(Now()) && HasSlots(View(Now()).kind) && index < SlotCount(Now())
      requires WellFormed(View(Now())) && |data| != |View(Now()).items[index]|
      modifies bytes
      ensures Layout(Now())
      ensures Replace(old(View(Now())), index, data) == if ok then Some(View(Now())) else None
      ensures !ok ==> Now() == old(Now())
    {
      var snapshot := bytes[..];
      MakeRoom(index, |data|);
      ok := InsertItem(index, data);
      if !ok {
        Restored(Now(), snapshot);
        Write(0, snapshot);
      }
    }

    // `replace_item`: false, and the old bytes back, if the data cannot fit even compacted.
    method ReplaceItem(index: nat, data: Item) returns (ok: bool)
      requires Sized() && Layout(Now()) && HasSlots(View(Now()).kind) && index < SlotCount(Now())
      modifies bytes
      ensures Layout(Now())
      ensures WellFormed(old(View(Now()))) && Replace(old(View(Now())), index, data) == if ok then Some(View(Now()))
              else None
      ensures !ok ==> Now() == old(Now())
    {
      ViewWellFormed(Now());
      var s := SlotAt(bytes[..], index);
      assert s == Slots(Now())[index] && |View(Now()).items[index]| == s.len;
      if |data| == s.len {
        OverwrittenView(Now(), index, data);
        Write(s.offset, data);
        ok := true;
      } else {
        ok := MoveItem(index, data);
      }
    }
  }
}
