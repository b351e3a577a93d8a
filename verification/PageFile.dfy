// A page on its way to disk and back: the checksum, and the layout check on everything read.
module PageFile {
  import opened Bytes
  import opened PageImage
  import opened Wrappers
  import opened SlottedPage
  import opened Crc
  import opened Octets

  datatype LoadError = ChecksumMismatch | UnknownKind | CorruptLayout

  function Sum(b: Raw): u32 { Checksum(b[4..]) as int }

  // `to_bytes`: the page with its checksum filled in.
  function ToBytes(b: Raw): Raw { Put(b, 0, ToLE(Sum(b), 4)) }

  // `validate_layout`: exactly the layouts every later access may rely on.
  method ValidateLayout(b: Raw) returns (ok: bool)
    ensures ok <==> InBounds(b)
  {
    var count, free := SlotCount(b), FreeEnd(b);
    if SlotBase(count) > PAGE_SIZE {
      return false;
    }
    if free > PAGE_SIZE || free < SlotBase(count) {
      return false;
    }
    for i := 0 to count
      invariant forall j :: 0 <= j < i ==>
                free <= Slots(b)[j].offset && Slots(b)[j].offset + Slots(b)[j].len <= PAGE_SIZE
    {
      var s := SlotAt(b, i);
      assert s == Slots(b)[i];
      if s.offset < free || s.offset + s.len > PAGE_SIZE {
        return false;
      }
    }
    return true;
  }

  // What `from_bytes` makes of any 8 KiB.
  ghost function Load(b: Raw): Result<Raw, LoadError> {
    if FromLE(b[..4]) != Sum(b) then Err(ChecksumMismatch)
    else if KindOf(b[KIND_AT]).None? then Err(UnknownKind)
    else if !InBounds(b) then Err(CorruptLayout)
    else Ok(b)
  }

  method FromBytes(b: Raw) returns (r: Result<Raw, LoadError>)
    ensures r == Load(b)
  {
    var stored := FromLE(b[..4]);
    var actual := Crc32c(b[4..]);
    if stored != actual as int {
      return Err(ChecksumMismatch);
    }
    if KindOf(b[KIND_AT]).None? {
      return Err(UnknownKind);
    }
    var ok := ValidateLayout(b);
    if !ok {
      return Err(CorruptLayout);
    }
    return Ok(b);
  }

  lemma {:induction false} ChecksumSits(b: Raw)
    ensures FromLE(ToBytes(b)[..4]) == Sum(ToBytes(b)) && ToBytes(b)[4..] == b[4..]
    ensures Within(b, ToBytes(b), 0, 4)
  {
    U32RoundTrip(Sum(b));
    assert ToBytes(b)[..4] == ToLE(Sum(b), 4);
    PutWithin(b, 0, ToLE(Sum(b), 4));
  }

  lemma {:induction false} HeaderPastChecksum(b: Raw, b': Raw)
    requires Within(b, b', 0, 4)
    ensures SlotCount(b') == SlotCount(b) && FreeEnd(b') == FreeEnd(b) && SameHeader(b, b') && SameFrom(b, b', 4)
    ensures SlotBase(SlotCount(b)) <= PAGE_SIZE ==> Slots(b') == Slots(b)
  {
  }

  // Every page the slotted operations can produce survives the trip to disk with its contents.
  lemma {:induction false} RoundTrip(b: Raw)
    requires Layout(b)
    ensures Load(ToBytes(b)) == Ok(ToBytes(b))
    ensures Layout(ToBytes(b)) && View(ToBytes(b)) == View(b)
  {
    var x := ToBytes(b);
    ChecksumSits(b);
    HeaderPastChecksum(b, x);
    CutSame(b, x, Slots(b), FreeEnd(b));
  }

  lemma {:induction false} LEInjective(s: seq<byte>, t: seq<byte>)
    requires |s| == |t| && FromLE(s) == FromLE(t)
    ensures s == t
  {
    if s != [] {
      LEInjective(s[1..], t[1..]);
      assert s == [s[0]] + s[1..] && t == [t[0]] + t[1..];
    }
  }

  lemma {:induction false} SumDiffers(b: Raw, c: Raw, k: nat)
    requires 4 <= k < PAGE_SIZE && b[k] != c[k]
    requires forall i :: 0 <= i < PAGE_SIZE && i != k ==> b[i] == c[i]
    ensures Sum(b) != Sum(c)
  {
    OneByteChanges(b[4..], c[4..], k - 4);
    NegationDiffers(Register(b[4..]), Register(c[4..]));
  }

  lemma {:induction false} NegationDiffers(x: bv32, y: bv32)
    requires x != y
    ensures (!x) as int != (!y) as int
  {
    assert !x != !y;
    if (!x) as int == (!y) as int {
      WordInjective(!x, !y);
    }
  }

  // One changed byte, wherever it is, is caught by the checksum.
  lemma {:induction false} OneByteRejected(b: Raw, c: Raw, k: nat)
    requires k < PAGE_SIZE && c[k] != ToBytes(b)[k]
    requires forall i :: 0 <= i < PAGE_SIZE && i != k ==> c[i] == ToBytes(b)[i]
    ensures Load(c) == Err(ChecksumMismatch)
  {
    var x := ToBytes(b);
    ChecksumSits(b);
    if k < 4 {
      assert c[4..] == x[4..] && c[..4][k] != x[..4][k];
      if FromLE(c[..4]) == FromLE(x[..4]) {
        LEInjective(c[..4], x[..4]);
      }
    } else {
      assert c[..4] == x[..4];
      SumDiffers(x, c, k);
    }
  }
}
