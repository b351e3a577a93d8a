// Proleptic-Gregorian calendar arithmetic over all integers.
module Calendar {
  import opened Bytes

  // Division as the engine's integer types do it: toward zero.
  function TruncDiv(a: int, b: int): int
    requires b > 0
  {
    if a >= 0 then a / b else -((-a) / b)
  }

  // ------------------------------------------------------- the definition

  predicate Leap(y: int) { y % 4 == 0 && (y % 100 != 0 || y % 400 == 0) }

  function MonthLength(y: int, m: int): int {
    if m == 4 || m == 6 || m == 9 || m == 11 then 30
    else if m != 2 then 31
    else if Leap(y) then 29
    else 28
  }

  datatype Date = Date(y: int, m: int, d: int)

  ghost predicate Valid(date: Date) {
    1 <= date.m <= 12 && 1 <= date.d <= MonthLength(date.y, date.m)
  }

  function NextDay(date: Date): Date {
    if date.d < MonthLength(date.y, date.m) then Date(date.y, date.m, date.d + 1)
    else if date.m < 12 then Date(date.y, date.m + 1, 1)
    else Date(date.y + 1, 1, 1)
  }

  ghost predicate Before(a: Date, b: Date) {
    a.y < b.y || (a.y == b.y && (a.m < b.m || (a.m == b.m && a.d < b.d)))
  }

  // ------------------------------------------------------- the algorithms

  function DaysFromCivil(year: int, m: int, d: int): int {
    var y := if m <= 2 then year - 1 else year;
    var era := TruncDiv(if y >= 0 then y else y - 399, 400);
    var yoe := y - era * 400;
    var mp := if m > 2 then m - 3 else m + 9;
    var doy := (153 * mp + 2) / 5 + d - 1;
    var doe := yoe * 365 + yoe / 4 - yoe / 100 + doy;
    era * 146097 + doe - 719468
  }

  // Year of the era, then day of the year, then month and day.
  function YearOfEra(doe: int): int { (doe - doe / 1460 + doe / 36524 - doe / 146096) / 365 }

  function DateInYear(y: int, doy: int): Date {
    var mp := (5 * doy + 2) / 153;
    var d := doy - (153 * mp + 2) / 5 + 1;
    var m := if mp < 10 then mp + 3 else mp - 9;
    Date(if m <= 2 then y + 1 else y, m, d)
  }

  function EraOf(z: int): int { TruncDiv(if z >= 0 then z else z - 146096, 146097) }

  // `z` counts from the first day of the year 0, reckoned from March.
  function CivilFromMarch(z: int): Date {
    var era := EraOf(z);
    var doe := z - era * 146097;
    var yoe := YearOfEra(doe);
    DateInYear(yoe + era * 400, doe - (365 * yoe + yoe / 4 - yoe / 100))
  }

  function CivilFromDays(days: int): Date { CivilFromMarch(days + 719468) }

  // The shifted truncating divisions are floors.
  lemma {:induction false} EraIsFloor(y: int)
    ensures TruncDiv(if y >= 0 then y else y - 399, 400) == y / 400
  {
  }

  lemma {:induction false} DayEraIsFloor(z: int)
    ensures EraOf(z) == z / 146097
  {
  }

  // ----------------------------------------------------- March-based years

  // Days before March-based year `y`: 365 a year and one for each leap day so far.
  function YearStart(y: int): int { 365 * y + y / 4 - y / 100 + y / 400 }

  // March-based year, month and day of year of a date.
  function MarchYear(date: Date): int { if date.m <= 2 then date.y - 1 else date.y }

  function MarchMonth(m: int): int { if m > 2 then m - 3 else m + 9 }

  function MonthStart(mp: int): int { (153 * mp + 2) / 5 }

  function DayOfYear(date: Date): int { MonthStart(MarchMonth(date.m)) + date.d - 1 }

  function YearLength(y: int): int { if Leap(y + 1) then 366 else 365 }

  // How often a multiple is passed in one step.
  function Passes(n: int, k: int): int
    requires k > 0
  {
    if n % k == 0 then 1 else 0
  }

  lemma {:induction false} QuotientSteps(y: int)
    ensures (y + 1) / 4 == y / 4 + Passes(y + 1, 4)
    ensures (y + 1) / 100 == y / 100 + Passes(y + 1, 100)
    ensures (y + 1) / 400 == y / 400 + Passes(y + 1, 400)
  {
  }

  lemma {:induction false} LeapCounts(n: int)
    ensures Passes(n, 4) - Passes(n, 100) + Passes(n, 400) == if Leap(n) then 1 else 0
  {
    if n % 400 == 0 {
      DivModUnique(n, 100, 4 * (n / 400), 0);
    }
    if n % 100 == 0 {
      DivModUnique(n, 4, 25 * (n / 100), 0);
    }
  }

  lemma {:induction false} YearStartNext(y: int)
    ensures YearStart(y + 1) == YearStart(y) + YearLength(y)
  {
    QuotientSteps(y);
    LeapCounts(y + 1);
  }

  lemma {:induction false} EraYears(y: int)
    ensures var era, yoe := y / 400, y % 400;
            && YearStart(y) == era * 146097 + yoe * 365 + yoe / 4 - yoe / 100
            && 0 <= yoe < 400 && y == era * 400 + yoe
  {
    EraQuotients(y / 400, y % 400);
  }

  lemma {:induction false} EraQuotients(era: int, n: int)
    ensures (400 * era + n) / 4 == 100 * era + n / 4 && (400 * era + n) % 4 == n % 4
    ensures (400 * era + n) / 100 == 4 * era + n / 100 && (400 * era + n) % 100 == n % 100
    ensures (400 * era + n) / 400 == era + n / 400 && (400 * era + n) % 400 == n % 400
  {
    DivModUnique(400 * era + n, 4, 100 * era + n / 4, n % 4);
    DivModUnique(400 * era + n, 100, 4 * era + n / 100, n % 100);
    DivModUnique(400 * era + n, 400, era + n / 400, n % 400);
  }

  lemma {:induction false} DaysClosedForm(date: Date)
    ensures DaysFromCivil(date.y, date.m, date.d) == YearStart(MarchYear(date)) + DayOfYear(date) - 719468
  {
    var y := MarchYear(date);
    EraIsFloor(y);
    EraYears(y);
  }

  lemma {:induction false} MonthsTile(mp: int)
    requires 0 <= mp < 11
    ensures MonthStart(mp + 1) == MonthStart(mp) + MonthLength(0, if mp < 10 then mp + 3 else mp - 9)
  {
  }

  lemma {:induction false} MonthStarts()
    ensures MonthStart(0) == 0 && MonthStart(11) == 337
  {
  }

  function Days(date: Date): int { DaysFromCivil(date.y, date.m, date.d) }

  // ------------------------------------------------------ day by day

  // The calendar's first day of the epoch, and one day after the other from there.
  lemma {:induction false} EpochIsZero()
    ensures Days(Date(1970, 1, 1)) == 0
  {
  }

  lemma {:induction false} NextDayAdvances(date: Date)
    requires Valid(date)
    ensures Valid(NextDay(date)) && Days(NextDay(date)) == Days(date) + 1
  {
    DaysClosedForm(date);
    DaysClosedForm(NextDay(date));
    if date.d == MonthLength(date.y, date.m) {
      MonthEnds(date);
    }
  }

  lemma {:induction false} MonthEnds(date: Date)
    requires Valid(date) && date.d == MonthLength(date.y, date.m)
    ensures YearStart(MarchYear(NextDay(date))) + DayOfYear(NextDay(date)) == YearStart(MarchYear(date))
            + DayOfYear(date) + 1
  {
    MonthStarts();
    if date.m == 2 {
      YearStartNext(date.y - 1);
    } else {
      MonthsTile(MarchMonth(date.m));
    }
  }

  function PreviousDay(date: Date): Date {
    if date.d > 1 then Date(date.y, date.m, date.d - 1)
    else if date.m > 1 then Date(date.y, date.m - 1, MonthLength(date.y, date.m - 1))
    else Date(date.y - 1, 12, 31)
  }

  lemma {:induction false} PreviousDayRetreats(date: Date)
    requires Valid(date)
    ensures Valid(PreviousDay(date)) && NextDay(PreviousDay(date)) == date && Days(PreviousDay(date)) == Days(date) - 1
  {
    NextDayAdvances(PreviousDay(date));
  }

  // Every day number is some date's.
  lemma {:induction false} EveryDayHasADate(z: int) returns (date: Date)
    ensures Valid(date) && Days(date) == z
    decreases if z >= 0 then z else -z
  {
    if z == 0 {
      EpochIsZero();
      date := Date(1970, 1, 1);
    } else if z > 0 {
      var before := EveryDayHasADate(z - 1);
      NextDayAdvances(before);
      date := NextDay(before);
    } else {
      var after := EveryDayHasADate(z + 1);
      PreviousDayRetreats(after);
      date := PreviousDay(after);
    }
  }

  // ------------------------------------------------------------ inverse

  lemma {:induction false} DayOfYearFits(date: Date)
    requires Valid(date)
    ensures 0 <= DayOfYear(date) < YearLength(MarchYear(date))
  {
    MonthStarts();
  }

  // The month and day come back out of the day of the year.
  lemma {:induction false} MonthBack(mp: int, d: int)
    requires 0 <= mp <= 11 && 1 <= d <= (if mp == 11 then 29 else MonthLength(0, if mp < 10 then mp + 3 else mp - 9))
    ensures (5 * (MonthStart(mp) + d - 1) + 2) / 153 == mp
  {
  }

  // The day of an era by century, four-year cycle, year and day.
  function DayOfEra(c: int, q: int, r: int, doy: int): int { 36524 * c + 1461 * q + 365 * r + doy }

  ghost predicate InEra(c: int, q: int, r: int, doy: int) {
    && 0 <= c < 4 && 0 <= q < 25 && 0 <= r < 4
    && 0 <= doy < (if r == 3 && (q != 24 || c == 3) then 366 else 365)
  }

  lemma {:induction false} Centuries(c: int, q: int, r: int, doy: int)
    requires InEra(c, q, r, doy)
    ensures var doe := DayOfEra(c, q, r, doy); 0 <= doe < 146097 && doe / 36524 - doe / 146096 == c
  {
    var doe := DayOfEra(c, q, r, doy);
    if doe < 146096 {
      assert doe / 146096 == 0;
      assert 36524 * c <= doe < 36524 * (c + 1);
    }
  }

  lemma {:induction false} Cycles(c: int, q: int, r: int, doy: int)
    requires InEra(c, q, r, doy)
    ensures var late := if 24 * c + q + 365 * r + doy >= 1460 then 1 else 0;
            DayOfEra(c, q, r, doy) / 1460 == 25 * c + q + late
  {
    assert DayOfEra(c, q, r, doy) == 1460 * (25 * c + q) + (24 * c + q + 365 * r + doy);
  }

  lemma {:induction false} YearBackSplit(c: int, q: int, r: int, doy: int)
    requires InEra(c, q, r, doy)
    ensures YearOfEra(DayOfEra(c, q, r, doy)) == 100 * c + 4 * q + r
  {
    var doe := DayOfEra(c, q, r, doy);
    var late := if 24 * c + q + 365 * r + doy >= 1460 then 1 else 0;
    Centuries(c, q, r, doy);
    Cycles(c, q, r, doy);
    var n := doe - doe / 1460 + doe / 36524 - doe / 146096;
    assert n == 365 * (100 * c + 4 * q + r) + (doy - late);
    assert 0 <= doy - late < 365;
  }

  lemma {:induction false} EraParts(yoe: int) returns (c: int, q: int, r: int)
    requires 0 <= yoe < 400
    ensures yoe == 100 * c + 4 * q + r && 0 <= c < 4 && 0 <= q < 25 && 0 <= r < 4
    ensures yoe / 4 == 25 * c + q && yoe / 100 == c
    ensures Leap(yoe + 1) <==> r == 3 && (q != 24 || c == 3)
  {
    c, q, r := yoe / 100, yoe % 100 / 4, yoe % 4;
    assert yoe % 100 == 4 * q + r;
  }

  // The year of the era comes back out of the day of the era.
  lemma {:induction false} YearBack(yoe: int, doy: int)
    requires 0 <= yoe < 400 && 0 <= doy < YearLength(yoe)
    ensures var doe := yoe * 365 + yoe / 4 - yoe / 100 + doy;
            0 <= doe < 146097 && YearOfEra(doe) == yoe
  {
    var c, q, r := EraParts(yoe);
    YearBackSplit(c, q, r, doy);
    Centuries(c, q, r, doy);
  }

  // One leap pattern per era.
  lemma {:induction false} LeapPeriod(era: int, n: int)
    ensures Leap(400 * era + n) <==> Leap(n)
  {
    EraQuotients(era, n);
  }

  lemma {:induction false} DateInYearBack(date: Date)
    requires Valid(date)
    ensures DateInYear(MarchYear(date), DayOfYear(date)) == date
  {
    MonthBack(MarchMonth(date.m), date.d);
  }

  lemma {:induction false} EraSplit(z: int, era: int, doe: int)
    requires z == era * 146097 + doe && 0 <= doe < 146097
    ensures EraOf(z) == era
  {
    DayEraIsFloor(z);
  }

  lemma {:induction false} Assembles(z: int, era: int, doe: int, yoe: int, doy: int)
    requires EraOf(z) == era && doe == z - era * 146097 && YearOfEra(doe) == yoe
    requires doy == doe - (365 * yoe + yoe / 4 - yoe / 100)
    ensures CivilFromMarch(z) == DateInYear(yoe + era * 400, doy)
  {
  }

  lemma {:induction false} FromEraDay(z: int, era: int, yoe: int, doy: int, doe: int)
    requires 0 <= yoe < 400 && 0 <= doy < YearLength(yoe)
    requires doe == yoe * 365 + yoe / 4 - yoe / 100 + doy && z == era * 146097 + doe
    ensures CivilFromMarch(z) == DateInYear(yoe + era * 400, doy)
  {
    YearBack(yoe, doy);
    EraSplit(z, era, doe);
    Assembles(z, era, doe, yoe, doy);
  }

  lemma {:induction false} FromYearAndDay(y: int, doy: int)
    requires 0 <= doy < YearLength(y)
    ensures CivilFromMarch(YearStart(y) + doy) == DateInYear(y, doy)
  {
    var era, yoe := y / 400, y % 400;
    EraYears(y);
    YearLengthPeriod(y);
    FromEraDay(YearStart(y) + doy, era, yoe, doy, yoe * 365 + yoe / 4 - yoe / 100 + doy);
  }

  lemma {:induction false} YearLengthPeriod(y: int)
    ensures YearLength(y % 400) == YearLength(y)
  {
    LeapPeriod(y / 400, y % 400 + 1);
  }

  // Converting a date to its day number and back gives the date.
  lemma {:induction false} CivilBack(date: Date)
    requires Valid(date)
    ensures CivilFromDays(Days(date)) == date
  {
    DaysClosedForm(date);
    DayOfYearFits(date);
    FromYearAndDay(MarchYear(date), DayOfYear(date));
    DateInYearBack(date);
  }

  // Converting a day number to its date and back gives the number, and the date is a real one.
  lemma {:induction false} DaysBack(z: int)
    ensures Valid(CivilFromDays(z)) && Days(CivilFromDays(z)) == z
  {
    var date := EveryDayHasADate(z);
    CivilBack(date);
  }

  // ------------------------------------------------------------- order

  lemma {:induction false} YearsApart(a: int, b: int)
    requires a < b
    ensures YearStart(a) + YearLength(a) <= YearStart(b)
    decreases b - a
  {
    YearStartNext(a);
    if a + 1 < b {
      YearsApart(a + 1, b);
    }
  }

  lemma {:induction false} LaterInYear(a: Date, b: Date)
    requires Valid(a) && Valid(b) && MarchYear(a) == MarchYear(b) && Before(a, b)
    ensures DayOfYear(a) < DayOfYear(b)
  {
  }

  lemma {:induction false} OrderKept(a: Date, b: Date)
    requires Valid(a) && Valid(b) && Before(a, b)
    ensures Days(a) < Days(b)
  {
    DaysClosedForm(a);
    DaysClosedForm(b);
    DayOfYearFits(a);
    DayOfYearFits(b);
    if MarchYear(a) == MarchYear(b) {
      LaterInYear(a, b);
    } else {
      YearsApart(MarchYear(a), MarchYear(b));
    }
  }
}
