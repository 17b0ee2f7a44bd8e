/** The day arithmetic of ECMAScript `Date` (ECMA-262, section 21.4.1, "Time Values and Time
    Range"), on whole days: the day number of the first day of a year, leap years, the month table,
    `MakeDay` with its month and date overflow, and the week day. A `Date` built by
    `new Date(year, month, day)` is modelled by the civil date it denotes, as read back with
    `getFullYear`, `getMonth`, `getDate` and `getDay`, in a time zone equal to UTC. */
module JsDates {
  /** `DayFromYear(y)`: the day number (days since 1 January 1970) of 1 January of year `y`,
      proleptic Gregorian. Dafny's `/` floors for a positive divisor, as the standard's
      floor does. */
  function DayFromYear(y: int): int {
    365 * (y - 1970) + (y - 1969) / 4 - (y - 1901) / 100 + (y - 1601) / 400
  }

  /** Gregorian leap years: divisible by 4, except centuries not divisible by 400. */
  predicate InLeapYear(y: int) {
    y % 4 == 0 && (y % 100 != 0 || y % 400 == 0)
  }

  /** `DaysInYear(y)`. */
  function DaysInYear(y: int): (n: int)
    ensures n == 365 || n == 366
    ensures n == 366 <==> InLeapYear(y)
  {
    if InLeapYear(y) then 366 else 365
  }

  /** 1 for true, 0 for false. */
  function Indicator(b: bool): int {
    if b then 1 else 0
  }

  /** The difference of consecutive `DayFromYear` values, term by term of the closed form. */
  lemma DayFromYearDifference(y: int)
    ensures DayFromYear(y + 1) - DayFromYear(y) ==
              365 + ((y - 1968) / 4 - (y - 1969) / 4) - ((y - 1900) / 100 - (y - 1901) / 100)
              + ((y - 1600) / 400 - (y - 1601) / 400)
  {
  }

  /** Each floor term of the closed form grows by one exactly at the years divisible by its
      divisor. */
  lemma Multiples4(y: int)
    ensures (y - 1968) / 4 - (y - 1969) / 4 == Indicator(y % 4 == 0)
  {
  }

  lemma Multiples100(y: int)
    ensures (y - 1900) / 100 - (y - 1901) / 100 == Indicator(y % 100 == 0)
  {
  }

  lemma Multiples400(y: int)
    ensures (y - 1600) / 400 - (y - 1601) / 400 == Indicator(y % 400 == 0)
  {
  }

  /** A multiple of 400 is a multiple of 100, and a multiple of 100 one of 4. */
  lemma MultipleOf400(y: int)
    ensures y % 400 == 0 ==> y % 100 == 0
  {
  }

  lemma MultipleOf100(y: int)
    ensures y % 100 == 0 ==> y % 4 == 0
  {
  }

  /** Consecutive years are `DaysInYear` days apart: the closed form of `DayFromYear` counts
      exactly the leap years. */
  lemma DayFromYearStep(y: int)
    ensures DayFromYear(y + 1) == DayFromYear(y) + DaysInYear(y)
  {
    DayFromYearDifference(y);
    Multiples4(y);
    Multiples100(y);
    Multiples400(y);
    MultipleOf400(y);
    MultipleOf100(y);
  }

  /** The length of month `m` (0 = January) of year `y`; February has 29 days in a leap year. */
  function DaysInMonth(y: int, m: int): (n: int)
    requires 0 <= m < 12
    ensures 28 <= n <= 31
    ensures m == 1 ==> (n == 29 <==> InLeapYear(y))
    ensures m != 1 ==> (n == 30 <==> m == 3 || m == 5 || m == 8 || m == 10)
  {
    if m == 1 then (if InLeapYear(y) then 29 else 28)
    else if m == 3 || m == 5 || m == 8 || m == 10 then 30
    else 31
  }

  /** The days of year `y` before month `m`: the cumulative month table of `MonthFromTime`. */
  function DaysBeforeMonth(y: int, m: int): int
    requires 0 <= m < 12
  {
    var common :=
      if m == 0 then 0 else if m == 1 then 31 else if m == 2 then 59 else if m == 3 then 90
      else if m == 4 then 120 else if m == 5 then 151 else if m == 6 then 181 else if m == 7 then 212
      else if m == 8 then 243 else if m == 9 then 273 else if m == 10 then 304 else 334;
    common + (if m >= 2 && InLeapYear(y) then 1 else 0)
  }

  /** The day number of the first day of month `m` of year `y`. */
  function MonthStart(y: int, m: int): int
    requires 0 <= m < 12
  {
    DayFromYear(y) + DaysBeforeMonth(y, m)
  }

  /** The month before and the month after, as (year, month). */
  function PrevMonth(y: int, m: int): (r: (int, int))
    requires 0 <= m < 12
    ensures 0 <= r.1 < 12
  {
    if m == 0 then (y - 1, 11) else (y, m - 1)
  }

  function NextMonth(y: int, m: int): (r: (int, int))
    requires 0 <= m < 12
    ensures 0 <= r.1 < 12
  {
    if m == 11 then (y + 1, 0) else (y, m + 1)
  }

  /** A month starts where the previous one ends, also across the turn of a year. */
  lemma NextMonthStart(y: int, m: int)
    requires 0 <= m < 12
    ensures MonthStart(NextMonth(y, m).0, NextMonth(y, m).1) == MonthStart(y, m) + DaysInMonth(y, m)
  {
    if m == 11 {
      DayFromYearStep(y);
    }
  }

  /** `MakeDay(year, month, date)`: the month is first brought into 0..11, carrying whole years
      (`floor(month / 12)` and `month modulo 12`), then the date counts from the first of that
      month, so dates outside the month run into the neighbouring months. */
  function MakeDay(year: int, month: int, date: int): (d: int)
    ensures d == MonthStart(year + month / 12, month % 12) + date - 1
  {
    var ym := year + month / 12;
    var mn := month % 12;
    DayFromYear(ym) + DaysBeforeMonth(ym, mn) + date - 1
  }

  /** `WeekDay`: 0 is Sunday; day 0, 1 January 1970, was a Thursday. */
  function WeekDay(day: int): (w: int)
    ensures 0 <= w < 7
    ensures (day + 4 - w) % 7 == 0
  {
    (day + 4) % 7
  }

  /** The civil date a `Date` denotes. */
  datatype CivilDate = CivilDate(year: int, month: int, date: int)

  /** What `getMonth` and `getDate` can return: a month in 0..11 and a day within it. */
  predicate ValidDate(d: CivilDate) {
    0 <= d.month < 12 && 1 <= d.date <= DaysInMonth(d.year, d.month)
  }

  /** The day number of a civil date. */
  function DayNumber(d: CivilDate): int
    requires ValidDate(d)
  {
    MakeDay(d.year, d.month, d.date)
  }

  /** The civil date of day `day` counted from the first of month `m` of year `y`: days
      before the first step back a month at a time, days past the end forward. */
  function DateInMonth(y: int, m: int, day: int): (r: CivilDate)
    requires 0 <= m < 12
    ensures ValidDate(r)
    decreases day < 1, if day < 1 then -day else day
  {
    if day < 1 then
      var p := PrevMonth(y, m);
      DateInMonth(p.0, p.1, day + DaysInMonth(p.0, p.1))
    else if day > DaysInMonth(y, m) then
      var n := NextMonth(y, m);
      DateInMonth(n.0, n.1, day - DaysInMonth(y, m))
    else
      CivilDate(y, m, day)
  }

  /** A valid date's day number counts from the first of its month. */
  lemma DayNumberOfValid(d: CivilDate)
    requires ValidDate(d)
    ensures DayNumber(d) == MonthStart(d.year, d.month) + d.date - 1
  {
    assert d.month / 12 == 0 && d.month % 12 == d.month;
  }

  /** The month after the month before is the month itself. */
  lemma NextOfPrev(y: int, m: int)
    requires 0 <= m < 12
    ensures NextMonth(PrevMonth(y, m).0, PrevMonth(y, m).1) == (y, m)
  {
  }

  /** The date found is the one the day count names: its day number is the month's first day
      number plus `day - 1`, however far `day` lies outside the month. */
  lemma {:induction false} DateInMonthDayNumber(y: int, m: int, day: int)
    requires 0 <= m < 12
    ensures DayNumber(DateInMonth(y, m, day)) == MonthStart(y, m) + day - 1
    decreases day < 1, if day < 1 then -day else day
  {
    if day < 1 {
      var p := PrevMonth(y, m);
      var len := DaysInMonth(p.0, p.1);
      assert DateInMonth(y, m, day) == DateInMonth(p.0, p.1, day + len);
      DateInMonthDayNumber(p.0, p.1, day + len);
      NextMonthStart(p.0, p.1);
      NextOfPrev(y, m);
    } else if day > DaysInMonth(y, m) {
      var n := NextMonth(y, m);
      var len := DaysInMonth(y, m);
      assert DateInMonth(y, m, day) == DateInMonth(n.0, n.1, day - len);
      DateInMonthDayNumber(n.0, n.1, day - len);
      NextMonthStart(y, m);
    } else {
      assert DateInMonth(y, m, day) == CivilDate(y, m, day);
      DayNumberOfValid(CivilDate(y, m, day));
    }
  }

  /** The year rule of the `Date` constructor (ECMA-262, section 21.4.2.1): a year argument
      from 0 to 99 means 1900 to 1999; any other year is taken as given. */
  function FullYear(year: int): (r: int)
    ensures 0 <= year <= 99 ==> r == 1900 + year
    ensures !(0 <= year <= 99) ==> r == year
    ensures !(0 <= r <= 99)
  {
    if 0 <= year <= 99 then 1900 + year else year
  }

  /** `new Date(year, month, day)`: the civil date `MakeDay(FullYear(year), month, day)` falls
      on; the two-digit year rule applies before the month is carried into the year. */
  function NewDate(year: int, month: int, day: int): (r: CivilDate)
    ensures ValidDate(r)
  {
    DateInMonth(FullYear(year) + month / 12, month % 12, day)
  }

  /** The date `new Date(year, month, day)` builds has day number
      `MakeDay(FullYear(year), month, day)`, so `getDate`, `getMonth`, `getFullYear` and `getDay`
      read back the standard's values. */
  lemma NewDateDayNumber(year: int, month: int, day: int)
    ensures DayNumber(NewDate(year, month, day)) == MakeDay(FullYear(year), month, day)
  {
    DateInMonthDayNumber(FullYear(year) + month / 12, month % 12, day);
  }

  /** A year already past the two-digit range is unchanged by the rule, so building a date from
      the full year of a date built earlier gives the same date. */
  lemma NewDateOfFullYear(y: int, m: int, d: int)
    ensures NewDate(FullYear(y), m, d) == NewDate(y, m, d)
  {
    assert FullYear(FullYear(y)) == FullYear(y);
  }

  /** Years 50 and 0: `new Date(50, 0, 1)` is 1 January 1950, a Sunday, and February of year 0
      is February 1900, which has 28 days since 1900 is not a leap year. */
  lemma TwoDigitYears()
    ensures NewDate(50, 0, 1) == CivilDate(1950, 0, 1)
    ensures WeekDay(DayFromYear(1950)) == 0
    ensures NewDate(0, 2, 0) == CivilDate(1900, 1, 28)
  {
    Year1950();
    assert DaysInMonth(1900, 1) == 28;
    assert NewDate(0, 2, 0) == DateInMonth(1900, 2, 0);
  }

  /** A month already in 0..11 needs no carrying. */
  lemma NewDateNormalised(y: int, m: int, d: int)
    requires 0 <= m < 12
    ensures NewDate(y, m, d) == DateInMonth(FullYear(y), m, d)
  {
    assert FullYear(y) + m / 12 == FullYear(y) && m % 12 == m;
  }

  /** A day within the month is that day of that month. */
  lemma NewDateInMonth(y: int, m: int, d: int)
    requires 0 <= m < 12 && 1 <= d <= DaysInMonth(FullYear(y), m)
    ensures NewDate(y, m, d) == CivilDate(FullYear(y), m, d)
  {
    NewDateNormalised(y, m, d);
  }

  /** Day 0 and the days before it, back to the length of the previous month, fall in the
      previous month, counted back from its last day. */
  lemma NewDatePrevMonth(y: int, m: int, d: int)
    requires 0 <= m < 12
    requires 1 - DaysInMonth(PrevMonth(FullYear(y), m).0, PrevMonth(FullYear(y), m).1) <= d <= 0
    ensures NewDate(y, m, d) == CivilDate(PrevMonth(FullYear(y), m).0, PrevMonth(FullYear(y), m).1, d + DaysInMonth(PrevMonth(FullYear(y), m).0, PrevMonth(FullYear(y), m).1))
  {
    var fy := FullYear(y);
    var p := PrevMonth(fy, m);
    NewDateNormalised(y, m, d);
    assert DateInMonth(fy, m, d) == DateInMonth(p.0, p.1, d + DaysInMonth(p.0, p.1));
  }

  /** The days just past the end of a month fall in the next month, counted from its first
      day. */
  lemma NewDateNextMonth(y: int, m: int, i: int)
    requires 0 <= m < 12 && 1 <= i <= 28
    ensures NewDate(y, m, DaysInMonth(FullYear(y), m) + i) == CivilDate(NextMonth(FullYear(y), m).0, NextMonth(FullYear(y), m).1, i)
  {
    var fy := FullYear(y);
    var n := NextMonth(fy, m);
    NewDateNormalised(y, m, DaysInMonth(fy, m) + i);
    assert DateInMonth(n.0, n.1, i) == CivilDate(n.0, n.1, i);
    assert DateInMonth(fy, m, DaysInMonth(fy, m) + i) == DateInMonth(n.0, n.1, i);
  }

  /** The same day of the next month, given as `month + 1`, is that day of the next month. */
  lemma NewDateMonthAfter(y: int, m: int, i: int)
    requires 0 <= m < 12 && 1 <= i <= 28
    ensures NewDate(y, m + 1, i) == CivilDate(NextMonth(FullYear(y), m).0, NextMonth(FullYear(y), m).1, i)
  {
    var fy := FullYear(y);
    var n := NextMonth(fy, m);
    assert fy + (m + 1) / 12 == n.0 && (m + 1) % 12 == n.1;
    assert NewDate(y, m + 1, i) == DateInMonth(n.0, n.1, i);
    assert DateInMonth(n.0, n.1, i) == CivilDate(n.0, n.1, i);
  }

  /** `new Date(year, month + 1, 0)` is the last day of `month`: its `getDate` is the month's
      length. */
  lemma LastDayOfMonth(y: int, m: int)
    requires 0 <= m < 12
    ensures NewDate(y, m + 1, 0) == CivilDate(FullYear(y), m, DaysInMonth(FullYear(y), m))
  {
    var fy := FullYear(y);
    var n := NextMonth(fy, m);
    assert fy + (m + 1) / 12 == n.0 && (m + 1) % 12 == n.1;
    assert NewDate(y, m + 1, 0) == DateInMonth(n.0, n.1, 0);
    assert PrevMonth(n.0, n.1) == (fy, m);
    assert DateInMonth(n.0, n.1, 0) == DateInMonth(fy, m, DaysInMonth(fy, m));
  }

  /** The epoch year starts at day 0, and 2000 starts 10957 days later. */
  lemma EpochYear()
    ensures DayFromYear(1970) == 0
  {
  }

  lemma Year2000()
    ensures DayFromYear(2000) == 10957
  {
  }

  lemma Year1950()
    ensures DayFromYear(1950) == -7305
  {
  }

  lemma EpochWeekDay()
    ensures WeekDay(DayFromYear(1970)) == 4
  {
    EpochYear();
  }

  lemma WeekDay2000()
    ensures WeekDay(DayFromYear(2000)) == 6
  {
    Year2000();
  }

  lemma LeapFebruaries()
    ensures DaysInMonth(2000, 1) == 29 && DaysInMonth(1900, 1) == 28
  {
  }

  /** 1 January 1970 was a Thursday and 1 January 2000 a Saturday; 2000 was a leap year and
      1900 was not. */
  lemma KnownDates()
    ensures WeekDay(DayFromYear(1970)) == 4
    ensures WeekDay(DayFromYear(2000)) == 6
    ensures DaysInMonth(2000, 1) == 29 && DaysInMonth(1900, 1) == 28
  {
    EpochWeekDay();
    WeekDay2000();
    LeapFebruaries();
  }
}
