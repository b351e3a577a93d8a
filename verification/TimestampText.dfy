// Timestamps as text: what is printed reads back, unless the year is negative.
module TimestampText {
  import opened Wrappers
  import opened Calendar
  import opened Timestamps
  import opened Text

  // ------------------------------------------------------------ printing

  function DateText(date: Date): string {
    Padded(date.y, 4) + ['-'] + (Padded(date.m, 2) + ['-'] + Padded(date.d, 2))
  }

  // Seconds, with the fraction if there is one and no zeros after it.
  function SecondsText(s: int, us: int): string {
    if us == 0 then Padded(s, 2) else Padded(s, 2) + ['.'] + TrimEnd(Padded(us, 6), '0')
  }

  function TimeText(p: Parts): string {
    Padded(p.h, 2) + [':'] + (Padded(p.min, 2) + [':'] + SecondsText(p.s, p.us))
  }

  // `format_timestamp`.
  function FormatTimestamp(micros: int): string {
    var p := PartsFromMicros(micros);
    DateText(p.date) + [' '] + (TimeText(p) + ['+'] + "00")
  }

  // ------------------------------------------------------------- reading

  function Take(s: string, n: nat): string { if |s| <= n then s else s[..n] }

  // Whole seconds and microseconds.
  function ParseSeconds(s: string): Option<(int, int)> {
    match SplitOnce(s, {'.'})
    case None => (match ParseI64(s) case None => None case Some(n) => Some((n, 0)))
    case Some(parts) =>
      var f := Take(parts.1, 6);
      match ParseI64(parts.0)
      case None => None
      case Some(n) => (match ParseI64(f) case None => None case Some(frac) => Some((n, frac * Pow10(6 - |f|))))
  }

  datatype Time = Time(h: int, min: int, s: int, frac: int)

  function ParseTime(s: string): Option<Time> {
    var parts := Split(s, ':');
    if |parts| < 2 || |parts| > 3 then None
    else match ParseI64(parts[0])
      case None => None
      case Some(h) => match ParseI64(parts[1])
        case None => None
        case Some(min) =>
          match if |parts| == 3 then ParseSeconds(parts[2]) else Some((0, 0))
          case None => None
          case Some(sec) => if h > 23 || min > 59 || sec.0 > 60 then None else Some(Time(h, min, sec.0, sec.1))
  }

  function ParseDate(s: string): Option<Date> {
    var parts := Split(s, '-');
    if |parts| != 3 then None
    else match ParseI64(parts[0])
      case None => None
      case Some(y) => match ParseU32(parts[1])
        case None => None
        case Some(m) => match ParseU32(parts[2])
          case None => None
          case Some(d) => if 1 <= m <= 12 && 1 <= d <= 31 then Some(Date(y, m, d)) else None
  }

  // The zone suffix is cut off, not applied.
  function WithoutZone(rest: string): string {
    TrimEnd(match SplitOnce(rest, {'+'}) case Some(parts) => parts.0 case None => rest, 'Z')
  }

  // `parse_parts`.
  function ParseParts(date: string, rest: string): Option<int> {
    match ParseDate(date)
    case None => None
    case Some(d) =>
      if rest == [] then Some(Days(d) * DAY)
      else match ParseTime(WithoutZone(rest))
        case None => None
        case Some(t) => Some(MicrosOf(d, t.h, t.min, t.s, t.frac))
  }

  // `parse_timestamp`.
  function ParseTimestamp(s: string): Option<int> {
    match SplitOnce(Trim(s), {' ', 'T'})
    case None => None
    case Some(parts) => ParseParts(parts.0, parts.1)
  }

  // ----------------------------------------------------- piece by piece

  lemma {:induction false} PaddedFree(n: nat, w: nat, seps: set<char>)
    requires forall c :: c in seps ==> !IsDigit(c)
    ensures Free(Padded(n, w), seps)
  {
    PaddedBack(n, w);
    DigitsFree(Padded(n, w), seps);
  }

  lemma {:induction false} DateReadsBack(date: Date)
    requires 0 <= date.y < 0x8000_0000_0000_0000 && 1 <= date.m <= 12 && 1 <= date.d <= 31
    ensures ParseDate(DateText(date)) == Some(date)
  {
    PaddedFree(date.y, 4, {'-'});
    PaddedFree(date.m, 2, {'-'});
    PaddedFree(date.d, 2, {'-'});
    SplitThree(Padded(date.y, 4), Padded(date.m, 2), Padded(date.d, 2), '-');
    PaddedBack(date.y, 4);
    PaddedBack(date.m, 2);
    PaddedBack(date.d, 2);
    ParseDigits(Padded(date.y, 4));
    ParseDigits(Padded(date.m, 2));
    ParseDigits(Padded(date.d, 2));
  }

  // A negative year starts with its sign, which the reader takes for an empty first part.
  lemma {:induction false} NegativeYearIsRefused(date: Date)
    requires date.y < 0
    ensures ParseDate(DateText(date)) == None
  {
    var text := DateText(date);
    assert text[0] == '-';
    SplitCons("", '-', text[1..]);
    assert "" + ['-'] + text[1..] == text;
  }

  // The six digits of the fraction, cut after the last that is not zero.
  lemma {:induction false} FractionReadsBack(us: int)
    requires 0 < us < SECOND
    ensures var f := TrimEnd(Padded(us, 6), '0');
            && 1 <= |f| <= 6 && AllDigits(f) && NumberOf(f) <= us && NumberOf(f) * Pow10(6 - |f|) == us
  {
    SixDigits();
    PaddedBack(us, 6);
    var digits := Padded(us, 6);
    var f := TrimEnd(digits, '0');
    assert forall i :: 0 <= i < |f| ==> f[i] == digits[i];
    TrailingZeros(f, 6 - |f|);
    AtLeast(NumberOf(f), Pow10(6 - |f|));
  }

  lemma {:induction false} SixDigits()
    ensures Pow10(6) == SECOND
  {
    assert Pow10(2) == 10 * Pow10(1) && Pow10(3) == 10 * Pow10(2) && Pow10(4) == 10 * Pow10(3);
    assert Pow10(5) == 10 * Pow10(4) && Pow10(6) == 10 * Pow10(5);
  }

  lemma {:induction false} AtLeast(a: nat, b: nat)
    requires b >= 1
    ensures a <= a * b
  {
  }

  lemma {:induction false} FractionParses(a: string, f: string)
    requires AllDigits(a) && a != [] && NumberOf(a) < 100
    requires AllDigits(f) && 1 <= |f| <= 6 && NumberOf(f) < SECOND
    ensures ParseSeconds(a + ['.'] + f) == Some((NumberOf(a), NumberOf(f) * Pow10(6 - |f|)))
  {
    DigitsFree(a, {'.'});
    SplitsAt(a, '.', f, {'.'});
    ParseDigits(a);
    ParseDigits(f);
  }

  lemma {:induction false} WholeParses(a: string)
    requires AllDigits(a) && a != [] && NumberOf(a) < 100
    ensures ParseSeconds(a) == Some((NumberOf(a), 0))
  {
    DigitsFree(a, {'.'});
    SplitsNot(a, {'.'});
    ParseDigits(a);
  }

  lemma {:induction false} SecondsReadBack(s: int, us: int)
    requires 0 <= s < 60 && 0 <= us < SECOND
    ensures ParseSeconds(SecondsText(s, us)) == Some((s, us))
  {
    PaddedBack(s, 2);
    if us == 0 {
      WholeParses(Padded(s, 2));
    } else {
      FractionReadsBack(us);
      FractionParses(Padded(s, 2), TrimEnd(Padded(us, 6), '0'));
    }
  }

  lemma {:induction false} SecondsFree(s: int, us: int, seps: set<char>)
    requires 0 <= s < 60 && 0 <= us < SECOND
    requires '.' !in seps && forall c :: c in seps ==> !IsDigit(c)
    ensures Free(SecondsText(s, us), seps)
  {
    PaddedFree(s, 2, seps);
    if us > 0 {
      FractionReadsBack(us);
      DigitsFree(TrimEnd(Padded(us, 6), '0'), seps);
    }
  }

  lemma {:induction false} TimeReadsBack(p: Parts)
    requires InClock(p)
    ensures ParseTime(TimeText(p)) == Some(Time(p.h, p.min, p.s, p.us))
  {
    PaddedFree(p.h, 2, {':'});
    PaddedFree(p.min, 2, {':'});
    SecondsFree(p.s, p.us, {':'});
    SplitThree(Padded(p.h, 2), Padded(p.min, 2), SecondsText(p.s, p.us), ':');
    PaddedBack(p.h, 2);
    PaddedBack(p.min, 2);
    ParseDigits(Padded(p.h, 2));
    ParseDigits(Padded(p.min, 2));
    SecondsReadBack(p.s, p.us);
  }

  lemma {:induction false} TimeFree(p: Parts, seps: set<char>)
    requires InClock(p) && '.' !in seps && ':' !in seps && forall c :: c in seps ==> !IsDigit(c)
    ensures Free(TimeText(p), seps)
  {
    PaddedFree(p.h, 2, seps);
    PaddedFree(p.min, 2, seps);
    SecondsFree(p.s, p.us, seps);
  }

  lemma {:induction false} DateFree(date: Date, seps: set<char>)
    requires 0 <= date.y && 0 <= date.m && 0 <= date.d && '-' !in seps && forall c :: c in seps ==> !IsDigit(c)
    ensures Free(DateText(date), seps)
  {
    PaddedFree(date.y, 4, seps);
    PaddedFree(date.m, 2, seps);
    PaddedFree(date.d, 2, seps);
  }

  lemma {:induction false} TrimEndNothing(s: string, c: char)
    requires Free(s, {c})
    ensures TrimEnd(s, c) == s
  {
  }

  lemma {:induction false} ZoneIsCut(time: string)
    requires Free(time, {'+'}) && Free(time, {'Z'})
    ensures WithoutZone(time + ['+'] + "00") == time
  {
    SplitsAt(time, '+', "00", {'+'});
    TrimEndNothing(time, 'Z');
  }

  // Printed timestamps have nothing to trim.
  lemma {:induction false} NothingToTrim(s: string)
    requires s != [] && !IsSpace(s[0]) && !IsSpace(s[|s| - 1])
    ensures Trim(s) == s
  {
  }

  lemma {:induction false} SignFree(date: Date, seps: set<char>)
    requires date.m >= 0 && date.d >= 0 && '-' !in seps && forall c :: c in seps ==> !IsDigit(c)
    ensures Free(DateText(date), seps) && DateText(date) != []
    ensures DateText(date)[0] == '-' || IsDigit(DateText(date)[0])
  {
    var n: nat := if date.y >= 0 then date.y else -date.y;
    if date.y >= 0 {
      DateFree(date, seps);
      PaddedBack(date.y, 4);
      assert DateText(date)[0] == Padded(date.y, 4)[0];
    } else {
      PaddedFree(date.m, 2, seps);
      PaddedFree(date.d, 2, seps);
      DigitsFree(Decimal(n), seps);
    }
  }

  // ------------------------------------------------------- the round trip

  lemma {:induction false} TextTrims(date: string, time: string)
    requires date != [] && !IsSpace(date[0])
    ensures var text := date + [' '] + (time + ['+'] + "00"); Trim(text) == text
  {
    var text := date + [' '] + (time + ['+'] + "00");
    assert text[0] == date[0] && text[|text| - 1] == '0';
    NothingToTrim(text);
  }

  lemma {:induction false} TextShape(p: Parts)
    requires Valid(p.date) && InClock(p)
    ensures var rest := TimeText(p) + ['+'] + "00";
            var text := DateText(p.date) + [' '] + rest;
            && Trim(text) == text
            && SplitOnce(text, {' ', 'T'}) == Some((DateText(p.date), rest))
            && WithoutZone(rest) == TimeText(p)
  {
    SignFree(p.date, {' ', 'T'});
    TextTrims(DateText(p.date), TimeText(p));
    SplitsAt(DateText(p.date), ' ', TimeText(p) + ['+'] + "00", {' ', 'T'});
    TimeFree(p, {'+'});
    TimeFree(p, {'Z'});
    ZoneIsCut(TimeText(p));
  }

  // A 64-bit timestamp never reaches a year that a 64-bit parse would refuse.
  lemma {:induction false} YearIsSmall(micros: int)
    requires -0x8000_0000_0000_0000 <= micros < 0x8000_0000_0000_0000
    ensures PartsFromMicros(micros).date.y < 0x8000_0000_0000_0000
  {
    var date := PartsFromMicros(micros).date;
    PartsBack(micros);
    DaysBack(micros / DAY);
    DaysClosedForm(date);
    DayOfYearFits(date);
    if date.y > 1_000_000 {
      assert YearStart(MarchYear(date)) >= 365 * MarchYear(date);
    }
  }

  // Printing a timestamp and reading it back is the identity exactly when its year is not
  // negative.
  lemma {:induction false} TimestampRoundTrip(micros: int)
    requires -0x8000_0000_0000_0000 <= micros < 0x8000_0000_0000_0000
    ensures ParseTimestamp(FormatTimestamp(micros)) == Some(micros) <==> PartsFromMicros(micros).date.y >= 0
    ensures PartsFromMicros(micros).date.y < 0 ==> ParseTimestamp(FormatTimestamp(micros)) == None
  {
    var p := PartsFromMicros(micros);
    PartsBack(micros);
    TextShape(p);
    if p.date.y >= 0 {
      YearIsSmall(micros);
      DateReadsBack(p.date);
      TimeReadsBack(p);
    } else {
      NegativeYearIsRefused(p.date);
    }
  }

  // The last day of the year before the year 0 prints but does not read back.
  lemma {:induction false} AYearTooEarly()
    ensures Days(Date(-1, 12, 31)) * DAY == -62_167_305_600_000_000
    ensures ParseTimestamp(FormatTimestamp(-62_167_305_600_000_000)) == None
  {
    var date := Date(-1, 12, 31);
    assert Days(date) == -719_529;
    MicrosBack(Parts(date, 0, 0, 0, 0));
    TimestampRoundTrip(-62_167_305_600_000_000);
  }
}
