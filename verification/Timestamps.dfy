// Timestamps as calendar parts, and calendar-aware month arithmetic.
module Timestamps {
  import opened Calendar

  const DAY: int := 86_400_000_000
  const HOUR: int := 3_600_000_000
  const MINUTE: int := 60_000_000
  const SECOND: int := 1_000_000

  datatype Parts = Parts(date: Date, h: int, min: int, s: int, us: int)

  // `parts_from_micros`: the day is a floor, so times before the epoch have ordinary clocks.
  function PartsFromMicros(micros: int): Parts {
    var rem := micros % DAY;
    Parts(CivilFromDays(micros / DAY), rem / HOUR, rem / MINUTE % 60, rem / SECOND % 60, rem % SECOND)
  }

  ghost predicate InClock(p: Parts) {
    0 <= p.h < 24 && 0 <= p.min < 60 && 0 <= p.s < 60 && 0 <= p.us < SECOND
  }

  function Clock(p: Parts): int { (p.h * 3600 + p.min * 60 + p.s) * SECOND + p.us }

  function MicrosOf(date: Date, h: int, min: int, s: int, us: int): int {
    (Days(date) * 86400 + h * 3600 + min * 60 + s) * SECOND + us
  }

  lemma {:induction false} ClockSplits(rem: int)
    requires 0 <= rem < DAY
    ensures var h, min, s, us := rem / HOUR, rem / MINUTE % 60, rem / SECOND % 60, rem % SECOND;
            && 0 <= h < 24 && 0 <= min < 60 && 0 <= s < 60 && 0 <= us < SECOND
            && rem == (h * 3600 + min * 60 + s) * SECOND + us
  {
    var m, q := rem / MINUTE, rem / SECOND;
    assert rem == q * SECOND + rem % SECOND;
    assert m == q / 60 && q == m * 60 + q % 60;
    assert rem / HOUR == m / 60 && m == rem / HOUR * 60 + m % 60;
  }

  lemma {:induction false} ClockReads(h: int, min: int, s: int, us: int)
    requires 0 <= h < 24 && 0 <= min < 60 && 0 <= s < 60 && 0 <= us < SECOND
    ensures var rem := (h * 3600 + min * 60 + s) * SECOND + us;
            && 0 <= rem < DAY
            && rem / HOUR == h && rem / MINUTE % 60 == min && rem / SECOND % 60 == s && rem % SECOND == us
  {
    var rem := (h * 3600 + min * 60 + s) * SECOND + us;
    assert rem / SECOND == h * 3600 + min * 60 + s;
    assert rem / MINUTE == h * 60 + min;
  }

  // The parts of a timestamp are a real date and a real time of day, and together the timestamp.
  lemma {:induction false} PartsBack(micros: int)
    ensures var p := PartsFromMicros(micros);
            Valid(p.date) && InClock(p) && MicrosOf(p.date, p.h, p.min, p.s, p.us) == micros
  {
    DaysBack(micros / DAY);
    ClockSplits(micros % DAY);
    assert micros == micros / DAY * DAY + micros % DAY;
  }

  lemma {:induction false} DaySplits(micros: int, days: int, rem: int)
    requires micros == days * DAY + rem && 0 <= rem < DAY
    ensures micros / DAY == days && micros % DAY == rem
  {
  }

  // Any real date and time of day is what its timestamp splits into.
  lemma {:induction false} MicrosBack(p: Parts)
    requires Valid(p.date) && InClock(p)
    ensures PartsFromMicros(MicrosOf(p.date, p.h, p.min, p.s, p.us)) == p
  {
    ClockReads(p.h, p.min, p.s, p.us);
    DaySplits(MicrosOf(p.date, p.h, p.min, p.s, p.us), Days(p.date), Clock(p));
    CivilBack(p.date);
  }

  function Least(a: int, b: int): int { if a <= b then a else b }

  // The date `months` later, the day cut to that month's length.
  function Moved(date: Date, months: int): Date {
    var total := date.y * 12 + (date.m - 1) + months;
    var ny, nm := total / 12, total % 12 + 1;
    Date(ny, nm, Least(date.d, MonthLength(ny, nm)))
  }

  // `add_months`.
  function AddMonths(micros: int, months: int): int {
    var p := PartsFromMicros(micros);
    MicrosOf(Moved(p.date, months), p.h, p.min, p.s, p.us)
  }

  // Months counted from the year 0.
  function MonthNumber(date: Date): int { date.y * 12 + (date.m - 1) }

  lemma {:induction false} MovedLands(date: Date, months: int)
    requires Valid(date)
    ensures var to := Moved(date, months);
            && Valid(to) && MonthNumber(to) == MonthNumber(date) + months
            && to.d == Least(date.d, MonthLength(to.y, to.m))
  {
  }

  // It lands `months` later, on the same day or the last one that month has, at the same time.
  lemma {:induction false} AddMonthsLands(micros: int, months: int)
    ensures var p, q := PartsFromMicros(micros), PartsFromMicros(AddMonths(micros, months));
            && Valid(q.date) && MonthNumber(q.date) == MonthNumber(p.date) + months
            && q.date.d == Least(p.date.d, MonthLength(q.date.y, q.date.m))
            && q == p.(date := q.date)
  {
    PartsBack(micros);
    AddMonthsMoves(PartsFromMicros(micros), months);
    MovedLands(PartsFromMicros(micros).date, months);
  }

  lemma {:induction false} AddMonthsMoves(p: Parts, months: int)
    requires Valid(p.date) && InClock(p)
    ensures PartsFromMicros(MicrosOf(Moved(p.date, months), p.h, p.min, p.s, p.us)) == p.(date := Moved(p.date, months))
  {
    MovedLands(p.date, months);
    MicrosBack(p.(date := Moved(p.date, months)));
  }

  // The length of the month `months` later.
  function TargetLength(date: Date, months: int): int {
    var total := MonthNumber(date) + months;
    MonthLength(total / 12, total % 12 + 1)
  }

  lemma {:induction false} MovedBack(date: Date, months: int)
    requires Valid(date)
    ensures Moved(Moved(date, months), -months) == date <==> date.d <= TargetLength(date, months)
  {
    MovedLands(date, months);
    MovedLands(Moved(date, months), -months);
  }

  // Going there and back again is the identity exactly when the month reached has that day.
  lemma {:induction false} ThereAndBack(micros: int, months: int)
    ensures AddMonths(AddMonths(micros, months), -months) == micros <==>
            PartsFromMicros(micros).date.d <= TargetLength(PartsFromMicros(micros).date, months)
  {
    var p := PartsFromMicros(micros);
    PartsBack(micros);
    AddMonthsMoves(p, months);
    MovedLands(p.date, months);
    MovedBack(p.date, months);
    var back := Moved(Moved(p.date, months), -months);
    MovedLands(Moved(p.date, months), -months);
    MicrosBack(p.(date := back));
  }

  lemma {:induction false} DayCutOff(micros: int, months: int, date: Date)
    requires PartsFromMicros(micros).date == date && date.d > TargetLength(date, months)
    ensures AddMonths(AddMonths(micros, months), -months) != micros
  {
    ThereAndBack(micros, months);
  }

  lemma {:induction false} ShortFebruary(date: Date)
    requires date == Date(1970, 1, 31)
    ensures Valid(date) && TargetLength(date, 1) == 28
  {
  }

  // 31 January plus a month is 28 February, and that less a month is not 31 January.
  lemma {:induction false} LastOfJanuary(p: Parts) returns (micros: int)
    requires p == Parts(Date(1970, 1, 31), 0, 0, 0, 0)
    ensures PartsFromMicros(micros) == p && AddMonths(AddMonths(micros, 1), -1) != micros
  {
    ShortFebruary(p.date);
    micros := MicrosOf(p.date, p.h, p.min, p.s, p.us);
    MicrosBack(p);
    DayCutOff(micros, 1, p.date);
  }
}
