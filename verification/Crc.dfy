// Bytes and words as numbers and as bits.
module Octets {
  lemma {:induction false} WordInjective(a: bv32, b: bv32)
    requires a as int == b as int
    ensures a == b
  {
    assert (a as int) as bv32 == a;
  }

  lemma {:induction false} BackAgain(x: bv8)
    ensures (x as int) as bv8 == x
  {
  }

  lemma {:induction false} NextOctet(x: bv8)
    requires x < 255
    ensures (x + 1) as int == x as int + 1
  {
  }

  lemma {:induction false} OctetOf(a: nat) returns (x: bv8)
    requires a < 256
    ensures x as int == a
  {
    if a == 0 {
      x := 0;
    } else {
      x := OctetOf(a - 1);
      assert x < 255;
      NextOctet(x);
      x := x + 1;
    }
  }

  lemma {:induction false} OctetBack(a: int)
    requires 0 <= a < 256
    ensures (a as bv8) as int == a
  {
    var x := OctetOf(a);
    BackAgain(x);
  }
}

// CRC-32C in the reflected form of section 12.1 of RFC 3720: the table-driven loop, the
// bit-at-a-time definition, and what one changed byte does to the checksum.
module Crc {
  import opened Bytes
  import opened Octets

  const POLY: bv32 := 0x82f6_3b78
  const START: bv32 := 0xffff_ffff

  // ---------------------------------------------------- linear registers

  // A register is a linear map iterated; nothing here looks at a single bit.
  function Iter<T>(f: T -> T, c: T, n: nat): T
    decreases n
  {
    if n == 0 then c else Iter(f, f(c), n - 1)
  }

  // Words taken in one by one, the register moving after each.
  function TakeIn<T>(f: T -> T, plus: (T, T) -> T, c: T, bits: seq<T>): T {
    if bits == [] then c
    else f(plus(TakeIn(f, plus, c, bits[..|bits| - 1]), bits[|bits| - 1]))
  }

  function AddUp<T>(plus: (T, T) -> T, c: T, words: seq<T>): T {
    if words == [] then c
    else plus(AddUp(plus, c, words[..|words| - 1]), words[|words| - 1])
  }

  ghost predicate Linear<T(!new)>(f: T -> T, plus: (T, T) -> T) {
    forall x, y :: f(plus(x, y)) == plus(f(x), f(y))
  }

  lemma {:induction false} IterLinear<T(!new)>(f: T -> T, plus: (T, T) -> T, a: T, b: T, n: nat)
    requires Linear(f, plus)
    ensures Iter(f, plus(a, b), n) == plus(Iter(f, a, n), Iter(f, b, n))
    decreases n
  {
    if n > 0 {
      IterLinear(f, plus, f(a), f(b), n - 1);
      assert f(plus(a, b)) == plus(f(a), f(b));
    }
  }

  lemma {:induction false} IterLast<T>(f: T -> T, c: T, n: nat)
    ensures Iter(f, c, n + 1) == f(Iter(f, c, n))
    decreases n
  {
    if n > 0 {
      IterLast(f, f(c), n - 1);
    }
  }

  // Bits fed in one at a time act like one word fed in at once, in which each bit stands as
  // many places up as it came later.
  lemma {:induction false} TakenAtOnce<T(!new)>(f: T -> T, plus: (T, T) -> T, c: T, bits: seq<T>, words: seq<T>)
    requires Linear(f, plus) && |words| == |bits|
    requires forall k :: 0 <= k < |bits| ==> Iter(f, words[k], k) == bits[k]
    ensures TakeIn(f, plus, c, bits) == Iter(f, AddUp(plus, c, words), |bits|)
    decreases |bits|
  {
    if bits != [] {
      var n := |bits| - 1;
      var before := AddUp(plus, c, words[..n]);
      TakenAtOnce(f, plus, c, bits[..n], words[..n]);
      IterLinear(f, plus, before, words[n], n);
      IterLast(f, plus(before, words[n]), n);
    }
  }

  lemma {:induction false} AddUpIs<T>(plus: (T, T) -> T, words: seq<T>, sums: seq<T>)
    requires |sums| == |words| + 1
    requires forall k :: 0 <= k < |words| ==> plus(sums[k], words[k]) == sums[k + 1]
    ensures AddUp(plus, sums[0], words) == sums[|words|]
    decreases |words|
  {
    if words != [] {
      var n := |words| - 1;
      AddUpIs(plus, words[..n], sums[..n + 1]);
    }
  }

  // ------------------------------------------------------ the definition

  // The register moves one place; a one falling out feeds back through the polynomial.
  function Shift(c: bv32): bv32 {
    if c & 1 != 0 then (c >> 1) ^ POLY else c >> 1
  }

  function Xor(a: bv32, b: bv32): bv32 { a ^ b }

  function Octet(b: byte): bv8 { b as bv8 }

  function Place(k: nat): bv8 {
    match k
    case 0 => 1
    case 1 => 2
    case 2 => 4
    case 3 => 8
    case 4 => 16
    case 5 => 32
    case 6 => 64
    case _ => 128
  }

  // The bits of an octet, lowest first: at the low end of the register, and in place.
  function Bit(o: bv8, k: nat): bv32 { if o & Place(k) != 0 then 1 else 0 }

  function InPlace(o: bv8, k: nat): bv32 { if o & Place(k) != 0 then Place(k) as bv32 else 0 }

  function Bits(o: bv8): (s: seq<bv32>)
    ensures |s| == 8
  {
    seq(8, (k: nat) => Bit(o, k))
  }

  function InPlaces(o: bv8): (s: seq<bv32>)
    ensures |s| == 8
  {
    seq(8, (k: nat) => InPlace(o, k))
  }

  function Register(bytes: seq<byte>): bv32 {
    if bytes == [] then START
    else TakeIn(Shift, Xor, Register(bytes[..|bytes| - 1]), Bits(Octet(bytes[|bytes| - 1])))
  }

  function Checksum(bytes: seq<byte>): bv32 { !Register(bytes) }

  // ---------------------------------------------------------- linearity

  lemma {:induction false} XorMoved(a: bv32, b: bv32)
    ensures (a ^ b) >> 1 == (a >> 1) ^ (b >> 1)
  {
  }

  lemma {:induction false} ShiftEven(c: bv32)
    requires c & 1 == 0
    ensures Shift(c) == c >> 1
  {
  }

  lemma {:induction false} EvenEven(a: bv32, b: bv32)
    requires a & 1 == 0 && b & 1 == 0
    ensures Shift(a ^ b) == (a ^ b) >> 1
  {
    assert (a ^ b) & 1 == 0;
  }

  lemma {:induction false} EvenMoved(a: bv32, b: bv32)
    requires a & 1 == 0 && b & 1 == 0
    ensures Shift(a ^ b) == (a >> 1) ^ (b >> 1)
  {
    EvenEven(a, b);
    XorMoved(a, b);
  }

  ghost predicate Splits(a: bv32, b: bv32) { Shift(a ^ b) == Shift(a) ^ Shift(b) }

  lemma {:induction false} SplitsEven(a: bv32, b: bv32)
    requires a & 1 == 0 && b & 1 == 0
    ensures Splits(a, b)
  {
    EvenMoved(a, b);
    ShiftEven(a);
    ShiftEven(b);
  }

  lemma {:induction false} SplitsOdd(a: bv32, b: bv32)
    requires a & 1 != 0 && b & 1 != 0
    ensures Splits(a, b)
  {
    assert (a ^ b) & 1 == 0;
  }

  lemma {:induction false} SplitsMixed(a: bv32, b: bv32)
    requires a & 1 != 0 && b & 1 == 0
    ensures Splits(a, b)
  {
    assert (a ^ b) & 1 != 0;
  }

  lemma {:induction false} SplitsSwapped(a: bv32, b: bv32)
    requires Splits(b, a)
    ensures Splits(a, b)
  {
  }

  lemma {:induction false} SplitsAlways(a: bv32, b: bv32)
    ensures Splits(a, b)
  {
    if a & 1 != 0 {
      if b & 1 != 0 {
        SplitsOdd(a, b);
      } else {
        SplitsMixed(a, b);
      }
    } else if b & 1 != 0 {
      SplitsMixed(b, a);
      SplitsSwapped(a, b);
    } else {
      SplitsEven(a, b);
    }
  }

  lemma {:induction false} ShiftLinear()
    ensures Linear(Shift, Xor)
  {
    forall x, y ensures Shift(Xor(x, y)) == Xor(Shift(x), Shift(y)) {
      SplitsAlways(x, y);
    }
  }

  // ------------------------------------------------- an octet at a time

  lemma {:induction false} PlaceArrives(k: nat)
    requires k < 8
    ensures Iter(Shift, Place(k) as bv32, k) == 1
  {
    if k > 0 {
      PlaceArrives(k - 1);
      assert Shift(Place(k) as bv32) == Place(k - 1) as bv32;
    }
  }

  lemma {:induction false} NothingArrives(k: nat)
    ensures Iter(Shift, 0, k) == 0
  {
    if k > 0 {
      NothingArrives(k - 1);
    }
  }

  lemma {:induction false} BitArrives(o: bv8, k: nat)
    requires k < 8
    ensures Iter(Shift, InPlace(o, k), k) == Bit(o, k)
  {
    PlaceArrives(k);
    NothingArrives(k);
  }

  // The low `n` places of an octet.
  function LowMask(n: nat): bv8 {
    match n
    case 0 => 0
    case 1 => 1
    case 2 => 3
    case 3 => 7
    case 4 => 15
    case 5 => 31
    case 6 => 63
    case 7 => 127
    case _ => 255
  }

  function Masked(o: bv8, n: nat): bv32 { (o & LowMask(n)) as bv32 }

  lemma {:induction false} MaskGrows(o: bv8, n: nat)
    requires n < 8
    ensures Xor(Masked(o, n), InPlace(o, n)) == Masked(o, n + 1)
  {
  }

  lemma {:induction false} XorRegroup(c: bv32, m: bv32, p: bv32, sum: bv32)
    requires Xor(m, p) == sum
    ensures Xor(Xor(c, m), p) == Xor(c, sum)
  {
  }

  function Partial(c: bv32, o: bv8, n: nat): bv32 { Xor(c, Masked(o, n)) }

  lemma {:induction false} PartialGrows(c: bv32, o: bv8, n: nat)
    requires n < 8
    ensures Xor(Partial(c, o, n), InPlace(o, n)) == Partial(c, o, n + 1)
  {
    MaskGrows(o, n);
    XorRegroup(c, Masked(o, n), InPlace(o, n), Masked(o, n + 1));
  }

  lemma {:induction false} PartialEnds(c: bv32, o: bv8)
    ensures Partial(c, o, 0) == c && Partial(c, o, 8) == c ^ (o as bv32)
  {
  }

  lemma {:induction false} PlacesAddUp(c: bv32, o: bv8)
    ensures AddUp(Xor, c, InPlaces(o)) == c ^ (o as bv32)
  {
    var sums := seq(9, (k: nat) => Partial(c, o, k));
    forall k | 0 <= k < 8 ensures Xor(sums[k], InPlaces(o)[k]) == sums[k + 1] {
      PartialGrows(c, o, k);
    }
    PartialEnds(c, o);
    AddUpIs(Xor, InPlaces(o), sums);
  }

  lemma {:induction false} AllArrive(o: bv8)
    ensures forall k :: 0 <= k < 8 ==> Iter(Shift, InPlaces(o)[k], k) == Bits(o)[k]
  {
    forall k | 0 <= k < 8 ensures Iter(Shift, InPlaces(o)[k], k) == Bits(o)[k] {
      BitArrives(o, k);
    }
  }

  // The eight bits of an octet, one at a time, are the octet at once.
  lemma {:induction false} OctetAtOnce(c: bv32, o: bv8)
    ensures TakeIn(Shift, Xor, c, Bits(o)) == Iter(Shift, c ^ (o as bv32), 8)
  {
    ShiftLinear();
    AllArrive(o);
    TakenAtOnce(Shift, Xor, c, Bits(o), InPlaces(o));
    PlacesAddUp(c, o);
  }

  // ------------------------------------------------------- the fast form

  lemma {:induction false} ShiftTwice(c: bv32, n: nat)
    requires c & 3 == 0 && n >= 2
    ensures Iter(Shift, c, n) == Iter(Shift, c >> 2, n - 2)
  {
    assert Shift(c) == c >> 1;
    assert (c >> 1) & 1 == 0 && (c >> 1) >> 1 == c >> 2;
    assert Shift(c >> 1) == c >> 2;
    assert Iter(Shift, c, n) == Iter(Shift, Shift(c), n - 1);
  }

  // With the low byte clear nothing is fed back.
  lemma {:induction false} ShiftsHigh(c: bv32)
    requires c & 0xff == 0
    ensures Iter(Shift, c, 8) == c >> 8
  {
    ShiftTwice(c, 8);
    ShiftTwice(c >> 2, 6);
    ShiftTwice(c >> 4, 4);
    ShiftTwice(c >> 6, 2);
  }

  lemma {:induction false} MovesApart(a: bv32, b: bv32)
    ensures Iter(Shift, a ^ b, 8) == Iter(Shift, a, 8) ^ Iter(Shift, b, 8)
  {
    ShiftLinear();
    IterLinear(Shift, Xor, a, b, 8);
  }

  lemma {:induction false} PartsDecide(c: bv32, high: bv32, low: bv32)
    requires c == high ^ low && high & 0xff == 0
    ensures Iter(Shift, c, 8) == (high >> 8) ^ Iter(Shift, low, 8)
  {
    MovesApart(high, low);
    ShiftsHigh(high);
  }

  // The low byte of the register decides the feedback of eight moves.
  lemma {:induction false} LowByteDecides(c: bv32)
    ensures Iter(Shift, c, 8) == (c >> 8) ^ Iter(Shift, c & 0xff, 8)
  {
    PartsDecide(c, c & 0xffff_ff00, c & 0xff);
  }

  // Entry `i` of the table: eight moves of a register holding `i`.
  function Entry(i: byte): bv32 { Iter(Shift, Octet(i) as bv32, 8) }

  method TableEntry(i: byte) returns (crc: bv32)
    ensures crc == Entry(i)
  {
    crc := Octet(i) as bv32;
    var bit := 0;
    while bit < 8
      invariant 0 <= bit <= 8
      invariant Iter(Shift, crc, 8 - bit) == Entry(i)
    {
      crc := Shift(crc);
      bit := bit + 1;
    }
  }

  function Table(): (t: seq<bv32>)
    ensures |t| == 256
  {
    seq(256, i requires 0 <= i < 256 => Entry(i))
  }

  lemma {:induction false} TableAt(i: byte)
    ensures Table()[i] == Entry(i)
  {
  }

  method BuildTable() returns (table: array<bv32>)
    ensures table[..] == Table()
  {
    table := new bv32[256];
    var i := 0;
    while i < 256
      invariant 0 <= i <= 256
      invariant table[..i] == Table()[..i]
    {
      var crc := TableEntry(i);
      TableAt(i);
      table[i] := crc;
      i := i + 1;
    }
  }

  lemma {:induction false} IndexRoundTrip(x: bv8)
    ensures 0 <= x as int < 256 && Octet(x as int) == x
  {
    assert (x as int) as bv8 == x;
  }

  function LowByte(c: bv32): bv8 { (c & 0xff) as bv8 }

  lemma {:induction false} EntryOf(low: bv8, y: bv32)
    requires y == low as bv32
    ensures Entry(low as int) == Iter(Shift, y, 8)
  {
    IndexRoundTrip(low);
  }

  lemma {:induction false} OctetInto(c: bv32, o: bv8, x: bv32)
    requires x == c ^ (o as bv32)
    ensures TakeIn(Shift, Xor, c, Bits(o)) == Iter(Shift, x, 8)
  {
    OctetAtOnce(c, o);
  }

  lemma {:induction false} CutAt(x: bv32, y: bv32, h: bv32)
    requires y == x & 0xff && h == x >> 8
    ensures Iter(Shift, x, 8) == Xor(h, Iter(Shift, y, 8))
  {
    LowByteDecides(x);
  }

  lemma {:induction false} StepVia(c: bv32, o: bv8, x: bv32, y: bv32, h: bv32, low: bv8)
    requires x == c ^ (o as bv32) && y == x & 0xff && h == x >> 8 && y == low as bv32
    ensures Xor(h, Entry(low as int)) == TakeIn(Shift, Xor, c, Bits(o))
  {
    OctetInto(c, o, x);
    CutAt(x, y, h);
    EntryOf(low, y);
  }

  lemma {:induction false} TopUntouched(c: bv32, o: bv8, x: bv32)
    requires x == c ^ (o as bv32)
    ensures c >> 8 == x >> 8 && LowByte(x) as bv32 == x & 0xff
  {
  }

  lemma {:induction false} StepFrom(c: bv32, o: bv8, x: bv32)
    requires x == c ^ (o as bv32)
    ensures Xor(c >> 8, Entry(LowByte(x) as int)) == TakeIn(Shift, Xor, c, Bits(o))
  {
    TopUntouched(c, o, x);
    StepVia(c, o, x, x & 0xff, c >> 8, LowByte(x));
  }

  // The table entry a step looks up.
  function Index(c: bv32, b: byte): byte { LowByte(c ^ (Octet(b) as bv32)) as int }

  function TakeByte(c: bv32, b: byte): bv32 { TakeIn(Shift, Xor, c, Bits(Octet(b))) }

  // One step of the fast loop takes in one byte.
  lemma {:induction false} TableStep(c: bv32, b: byte)
    ensures Xor(c >> 8, Entry(Index(c, b))) == TakeByte(c, b)
  {
    StepFrom(c, Octet(b), c ^ (Octet(b) as bv32));
  }

  method Feed(table: array<bv32>, c: bv32, b: byte) returns (r: bv32)
    requires table[..] == Table()
    ensures r == TakeByte(c, b)
  {
    TableStep(c, b);
    TableAt(Index(c, b));
    assert table[..][Index(c, b)] == table[Index(c, b)];
    r := (c >> 8) ^ table[Index(c, b)];
  }

  lemma {:induction false} RegisterStep(bytes: seq<byte>, i: nat)
    requires i < |bytes|
    ensures Register(bytes[..i + 1]) == TakeByte(Register(bytes[..i]), bytes[i])
  {
    assert bytes[..i + 1][..i] == bytes[..i];
  }

  // The table-driven loop computes the bit-at-a-time checksum.
  method Crc32c(bytes: seq<byte>) returns (r: bv32)
    ensures r == Checksum(bytes)
  {
    var table := BuildTable();
    var crc := START;
    for i := 0 to |bytes|
      invariant crc == Register(bytes[..i])
      invariant table[..] == Table()
    {
      RegisterStep(bytes, i);
      crc := Feed(table, crc, bytes[i]);
    }
    assert bytes[..|bytes|] == bytes;
    r := !crc;
  }

  // ------------------------------------------------ one changed byte

  // The top bit of a moved register tells whether a one fell out, so nothing is lost.
  lemma {:induction false} ShiftInjective(a: bv32, b: bv32)
    requires Shift(a) == Shift(b)
    ensures a == b
  {
  }

  lemma {:induction false} IterInjective(a: bv32, b: bv32, n: nat)
    requires Iter(Shift, a, n) == Iter(Shift, b, n)
    ensures a == b
    decreases n
  {
    if n > 0 {
      IterInjective(Shift(a), Shift(b), n - 1);
      ShiftInjective(a, b);
    }
  }

  lemma {:induction false} XorInjective(a: bv32, b: bv32, x: bv32)
    ensures a ^ x == b ^ x ==> a == b
    ensures x ^ a == x ^ b ==> a == b
  {
  }

  lemma {:induction false} OctetInjective(a: byte, b: byte)
    requires Octet(a) == Octet(b)
    ensures a == b
  {
    OctetBack(a);
    OctetBack(b);
  }

  lemma {:induction false} WideInjective(a: bv8, b: bv8)
    requires a as bv32 == b as bv32
    ensures a == b
  {
  }

  lemma {:induction false} RegistersMeet(c: bv32, d: bv32, o: bv8, p: bv8, x: bv32, y: bv32)
    requires x == o as bv32 && y == p as bv32
    requires TakeIn(Shift, Xor, c, Bits(o)) == TakeIn(Shift, Xor, d, Bits(p))
    ensures c ^ x == d ^ y
  {
    OctetAtOnce(c, o);
    OctetAtOnce(d, p);
    IterInjective(c ^ x, d ^ y, 8);
  }

  // A step is injective in the register and in the byte.
  lemma {:induction false} StepInjective(c: bv32, d: bv32, a: byte, b: byte)
    requires TakeIn(Shift, Xor, c, Bits(Octet(a))) == TakeIn(Shift, Xor, d, Bits(Octet(b)))
    ensures c == d ==> a == b
    ensures a == b ==> c == d
  {
    var x, y := Octet(a) as bv32, Octet(b) as bv32;
    RegistersMeet(c, d, Octet(a), Octet(b), x, y);
    if c == d {
      XorInjective(x, y, c);
      WideInjective(Octet(a), Octet(b));
      OctetInjective(a, b);
    }
    if a == b {
      XorInjective(c, d, x);
    }
  }

  // Two strings that differ in exactly one byte have different checksums.
  lemma {:induction false} OneByteChanges(s: seq<byte>, t: seq<byte>, k: nat)
    requires |s| == |t| && k < |s| && s[k] != t[k]
    requires forall i :: 0 <= i < |s| && i != k ==> s[i] == t[i]
    ensures Register(s) != Register(t)
    decreases |s|
  {
    var n := |s| - 1;
    if k == n {
      assert s[..n] == t[..n];
    } else {
      OneByteChanges(s[..n], t[..n], k);
    }
    if Register(s) == Register(t) {
      StepInjective(Register(s[..n]), Register(t[..n]), s[n], t[n]);
      assert false;
    }
  }
}
