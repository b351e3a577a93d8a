// Bytes and the fixed-width little-endian fields every on-disk structure is made of.
module Bytes {

  type byte = b: int | 0 <= b < 0x100

  const U16: nat := 0x1_0000
  const U32: nat := 0x1_0000_0000
  const U64: nat := 0x1_0000_0000_0000_0000

  type u32 = n: int | 0 <= n < 0x1_0000_0000
  type u64 = n: int | 0 <= n < 0x1_0000_0000_0000_0000

  function Pow256(n: nat): (p: nat)
    ensures p >= 1
  {
    if n == 0 then 1 else 256 * Pow256(n - 1)
  }

  lemma Widths()
    ensures Pow256(2) == U16 && Pow256(4) == U32 && Pow256(8) == U64
  {
    assert Pow256(1) == 256;
    assert Pow256(2) == 256 * Pow256(1);
    assert Pow256(3) == 256 * Pow256(2);
    assert Pow256(4) == 256 * Pow256(3);
    assert Pow256(5) == 256 * Pow256(4);
    assert Pow256(6) == 256 * Pow256(5);
    assert Pow256(7) == 256 * Pow256(6);
    assert Pow256(8) == 256 * Pow256(7);
  }

  // `v.to_le_bytes()` truncated to `n` bytes, as the narrowing casts in the engine do.
  function ToLE(v: nat, n: nat): (s: seq<byte>)
    ensures |s| == n
  {
    if n == 0 then [] else [v % 256] + ToLE(v / 256, n - 1)
  }

  // `from_le_bytes`.
  function FromLE(s: seq<byte>): nat {
    if s == [] then 0 else s[0] + 256 * FromLE(s[1..])
  }

  lemma {:induction false} FromLEBound(s: seq<byte>)
    ensures FromLE(s) < Pow256(|s|)
  {
    if s != [] {
      FromLEBound(s[1..]);
    }
  }

  // Writing a field and reading it back loses exactly the bits above its width.
  lemma {:induction false} LERoundTrip(v: nat, n: nat)
    ensures FromLE(ToLE(v, n)) == v % Pow256(n)
  {
    if n > 0 {
      var tail := ToLE(v / 256, n - 1);
      assert ToLE(v, n)[1..] == tail;
      LERoundTrip(v / 256, n - 1);
      ModSplit(v, Pow256(n - 1));
    }
  }

  lemma ModSplit(v: nat, m: nat)
    requires m >= 1
    ensures v % (256 * m) == v % 256 + 256 * ((v / 256) % m)
  {
    var q := (v / 256) / m;
    var r := (v / 256) % m;
    assert v / 256 == q * m + r;
    assert v == 256 * (q * m + r) + v % 256;
    var w := v % 256 + 256 * r;
    assert v == q * (256 * m) + w by {
      assert 256 * (q * m + r) == q * (256 * m) + 256 * r;
    }
    assert w < 256 * m;
    DivModUnique(v, 256 * m, q, w);
  }

  lemma MulAtLeast(k: int, d: int)
    requires k >= 1 && d > 0
    ensures k * d >= d
  {
    assert (k - 1) * d >= 0;
    assert k * d == (k - 1) * d + d;
  }

  lemma DivModUnique(v: int, d: int, q: int, w: int)
    requires d > 0 && 0 <= w < d && v == q * d + w
    ensures v % d == w && v / d == q
  {
    var q2, w2 := v / d, v % d;
    assert v == q2 * d + w2;
    if q > q2 {
      MulAtLeast(q - q2, d);
      assert false;
    } else if q < q2 {
      MulAtLeast(q2 - q, d);
      assert false;
    }
  }

  lemma U64RoundTrip(v: u64)
    ensures FromLE(ToLE(v, 8)) == v
  {
    LERoundTrip(v, 8);
    Widths();
  }

  lemma U32RoundTrip(v: u32)
    ensures FromLE(ToLE(v, 4)) == v
  {
    LERoundTrip(v, 4);
    Widths();
  }
}
