// Decimal numbers and splitting, as the string functions of the engine do them.
module Text {
  import opened Wrappers

  // ------------------------------------------------------------- digits

  predicate IsDigit(c: char) { '0' <= c <= '9' }

  ghost predicate AllDigits(s: string) { forall i :: 0 <= i < |s| ==> IsDigit(s[i]) }

  function DigitChar(d: nat): (c: char)
    requires d < 10
    ensures IsDigit(c) && DigitValue(c) == d
  {
    "0123456789"[d]
  }

  function DigitValue(c: char): nat
    requires IsDigit(c)
  {
    (c as int) - ('0' as int)
  }

  function Pow10(n: nat): (p: nat)
    ensures p >= 1
  {
    if n == 0 then 1 else 10 * Pow10(n - 1)
  }

  // What a digit string stands for.
  function NumberOf(s: string): nat
    requires forall i :: 0 <= i < |s| ==> IsDigit(s[i])
  {
    if s == [] then 0 else NumberOf(s[..|s| - 1]) * 10 + DigitValue(s[|s| - 1])
  }

  // Decimal digits, no leading zeros.
  function Decimal(n: nat): (s: string)
    ensures |s| >= 1 && forall i :: 0 <= i < |s| ==> IsDigit(s[i])
  {
    if n < 10 then [DigitChar(n)] else Decimal(n / 10) + [DigitChar(n % 10)]
  }

  lemma {:induction false} DecimalBack(n: nat)
    ensures NumberOf(Decimal(n)) == n
  {
    if n >= 10 {
      DecimalBack(n / 10);
      assert Decimal(n)[..|Decimal(n)| - 1] == Decimal(n / 10);
    } else {
      assert Decimal(n)[..0] == [];
    }
  }

  lemma {:induction false} DecimalLength(n: nat, w: nat)
    requires n < Pow10(w) && w >= 1
    ensures |Decimal(n)| <= w
  {
    if n >= 10 {
      assert w >= 2 by {
        assert Pow10(1) == 10 * Pow10(0);
      }
      DecimalLength(n / 10, w - 1);
    }
  }

  function Repeat(c: char, n: nat): (s: string)
    ensures |s| == n && forall i :: 0 <= i < n ==> s[i] == c
  {
    seq(n, _ => c)
  }

  // `{n:0w}`: zeros up to the width, the sign counted in.
  function Padded(n: int, w: nat): string {
    var digits := Decimal(if n >= 0 then n else -n);
    var sign := if n >= 0 then "" else "-";
    sign + Repeat('0', if |sign| + |digits| < w then w - |sign| - |digits| else 0) + digits
  }

  lemma {:induction false} LeadingZeros(k: nat, s: string)
    requires AllDigits(s)
    ensures AllDigits(Repeat('0', k) + s) && NumberOf(Repeat('0', k) + s) == NumberOf(s)
  {
    var t := Repeat('0', k) + s;
    if s != [] {
      LeadingZeros(k, s[..|s| - 1]);
      assert t[..|t| - 1] == Repeat('0', k) + s[..|s| - 1];
    } else if k > 0 {
      LeadingZeros(k - 1, s);
      assert t[..|t| - 1] == Repeat('0', k - 1) + s;
    } else {
      assert t == [];
    }
  }

  lemma {:induction false} PaddedBack(n: nat, w: nat)
    ensures AllDigits(Padded(n, w)) && NumberOf(Padded(n, w)) == n && |Padded(n, w)| >= 1
    ensures w >= 1 && n < Pow10(w) ==> |Padded(n, w)| == w
  {
    var digits := Decimal(n);
    DecimalBack(n);
    var k := if |digits| < w then w - |digits| else 0;
    LeadingZeros(k, digits);
    assert Padded(n, w) == Repeat('0', k) + digits;
    if w >= 1 && n < Pow10(w) {
      DecimalLength(n, w);
    }
  }

  lemma {:induction false} TrailingZeros(s: string, k: nat)
    requires AllDigits(s)
    ensures AllDigits(s + Repeat('0', k)) && NumberOf(s + Repeat('0', k)) == NumberOf(s) * Pow10(k)
  {
    var t := s + Repeat('0', k);
    if k == 0 {
      assert t == s;
    } else {
      TrailingZeros(s, k - 1);
      assert t[..|t| - 1] == s + Repeat('0', k - 1);
      TimesTen(NumberOf(s), Pow10(k - 1));
    }
  }

  lemma {:induction false} TimesTen(a: nat, b: nat)
    ensures a * b * 10 == a * (10 * b)
  {
  }

  // ------------------------------------------------------------ parsing

  predicate DigitsOnly(s: string) { s != [] && forall i :: 0 <= i < |s| ==> IsDigit(s[i]) }

  // `parse::<u32>`: an optional plus sign, then digits.
  function ParseU32(s: string): Option<nat> {
    var digits := if s != [] && s[0] == '+' then s[1..] else s;
    if DigitsOnly(digits) && NumberOf(digits) < 0x1_0000_0000 then Some(NumberOf(digits)) else None
  }

  // `parse::<i64>`: an optional sign, then digits.
  function ParseI64(s: string): Option<int> {
    if s != [] && s[0] == '-' then
      if DigitsOnly(s[1..]) && NumberOf(s[1..]) <= 0x8000_0000_0000_0000 then Some(0 - (NumberOf(s[1..]) as int))
        else None
    else
      var digits := if s != [] && s[0] == '+' then s[1..] else s;
      if DigitsOnly(digits) && NumberOf(digits) < 0x8000_0000_0000_0000 then Some(NumberOf(digits)) else None
  }

  lemma {:induction false} ParseDigits(s: string)
    requires AllDigits(s) && s != []
    ensures NumberOf(s) < 0x1_0000_0000 ==> ParseU32(s) == Some(NumberOf(s))
    ensures NumberOf(s) < 0x8000_0000_0000_0000 ==> ParseI64(s) == Some(NumberOf(s))
  {
    assert IsDigit(s[0]);
  }

  // ---------------------------------------------------------- splitting

  // Where the first of `seps` stands.
  function Find(s: string, seps: set<char>): (i: nat)
    ensures i <= |s| && (forall j :: 0 <= j < i ==> s[j] !in seps) && (i < |s| ==> s[i] in seps)
  {
    if s == [] || s[0] in seps then 0 else 1 + Find(s[1..], seps)
  }

  function SplitOnce(s: string, seps: set<char>): Option<(string, string)> {
    var i := Find(s, seps);
    if i < |s| then Some((s[..i], s[i + 1..])) else None
  }

  function Split(s: string, sep: char): (parts: seq<string>)
    ensures |parts| >= 1
  {
    var i := Find(s, {sep});
    if i < |s| then [s[..i]] + Split(s[i + 1..], sep) else [s]
  }

  ghost predicate Free(s: string, seps: set<char>) { forall i :: 0 <= i < |s| ==> s[i] !in seps }

  lemma {:induction false} SplitsAt(a: string, c: char, b: string, seps: set<char>)
    requires Free(a, seps) && c in seps
    ensures SplitOnce(a + [c] + b, seps) == Some((a, b))
  {
    var s := a + [c] + b;
    var i := Find(s, seps);
    assert s[|a|] == c;
    assert forall j :: 0 <= j < |a| ==> s[j] == a[j];
    assert i == |a|;
    assert s[..i] == a && s[i + 1..] == b;
  }

  lemma {:induction false} SplitsNot(s: string, seps: set<char>)
    requires Free(s, seps)
    ensures SplitOnce(s, seps) == None
  {
  }

  lemma {:induction false} SplitOne(a: string, sep: char)
    requires Free(a, {sep})
    ensures Split(a, sep) == [a]
  {
    SplitsNot(a, {sep});
  }

  lemma {:induction false} SplitCons(a: string, sep: char, b: string)
    requires Free(a, {sep})
    ensures Split(a + [sep] + b, sep) == [a] + Split(b, sep)
  {
    SplitsAt(a, sep, b, {sep});
  }

  lemma {:induction false} SplitThree(a: string, b: string, c: string, sep: char)
    requires Free(a, {sep}) && Free(b, {sep}) && Free(c, {sep})
    ensures Split(a + [sep] + (b + [sep] + c), sep) == [a, b, c]
  {
    SplitCons(a, sep, b + [sep] + c);
    SplitCons(b, sep, c);
    SplitOne(c, sep);
  }

  lemma {:induction false} DigitsFree(s: string, seps: set<char>)
    requires AllDigits(s) && forall c :: c in seps ==> !IsDigit(c)
    ensures Free(s, seps)
  {
  }

  // ----------------------------------------------------------- trimming

  // `trim_end_matches(c)`.
  function TrimEnd(s: string, c: char): (t: string)
    ensures |t| <= |s| && s == t + Repeat(c, |s| - |t|) && (t != [] ==> t[|t| - 1] != c)
  {
    if s != [] && s[|s| - 1] == c then
      var t := TrimEnd(s[..|s| - 1], c);
      assert s == s[..|s| - 1] + [c];
      t
    else s
  }

  // Unicode White_Space.
  predicate IsSpace(c: char) {
    var n := c as int;
    || 9 <= n <= 13 || n == 32 || n == 0x85 || n == 0xA0 || n == 0x1680 || 0x2000 <= n <= 0x200A
    || n == 0x2028 || n == 0x2029 || n == 0x202F || n == 0x205F || n == 0x3000
  }

  function TrimStartSpace(s: string): string {
    if s != [] && IsSpace(s[0]) then TrimStartSpace(s[1..]) else s
  }

  function TrimEndSpace(s: string): string {
    if s != [] && IsSpace(s[|s| - 1]) then TrimEndSpace(s[..|s| - 1]) else s
  }

  function Trim(s: string): string { TrimEndSpace(TrimStartSpace(s)) }
}
