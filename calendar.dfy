/** The month grid shared by `CalendarBody` and `getDaysInMonth`: position `k` of the grid of
    month `m` of year `y` holds day `k - s + 1` of that month in `new Date` terms, where `s` is the
    week day of the 1st (0 = Sunday). */
module CalendarGrid {
  import opened JsDates

  /** `getDay()` of the first of the month. */
  function StartDay(y: int, m: int): (s: int)
    requires 0 <= m < 12
    ensures 0 <= s < 7
  {
    WeekDay(MakeDay(y, m, 1))
  }

  /** `getDay()` of the last day of the month. */
  function EndDay(y: int, m: int): (e: int)
    requires 0 <= m < 12
    ensures 0 <= e < 7
  {
    WeekDay(MakeDay(y, m, DaysInMonth(y, m)))
  }

  /** The date at grid position `k`: the source reads the week day of the 1st off
      `new Date(y, m, 1)`, which lies in year `FullYear(y)`. */
  function GridDate(y: int, m: int, k: int): CivilDate
    requires 0 <= m < 12
  {
    NewDate(y, m, k - StartDay(FullYear(y), m) + 1)
  }

  /** Counting from the Sunday on or before day `a`: day `a - s + k` falls on week day `k mod 7`. */
  lemma WeekColumn(a: int, s: int, k: int)
    requires s == (a + 4) % 7
    ensures (a - s + k + 4) % 7 == k % 7
  {
    var q := (a + 4) / 7;
    assert a + 4 == 7 * q + s;
    assert a - s + k + 4 == 7 * q + k;
  }

  /** From the week day of a first day and of the `n`-th day after it, the days that complete
      the first and last weeks add up to whole weeks. */
  lemma WholeWeeks(a: int, n: int, s: int, e: int)
    requires s == (a + 4) % 7 && e == (a + n - 1 + 4) % 7
    ensures (s + n - 1 - e) % 7 == 0
  {
    var q1 := (a + 4) / 7;
    var q2 := (a + n - 1 + 4) / 7;
    assert a + 4 == 7 * q1 + s;
    assert a + n - 1 + 4 == 7 * q2 + e;
    assert s + n - 1 - e == 7 * (q2 - q1);
  }

  /** The grid's dates are consecutive days, and its columns are week days: position `k` falls on
      week day `k mod 7`, so position 0 is a Sunday. */
  lemma GridConsecutive(y: int, m: int, k: int)
    requires 0 <= m < 12
    ensures DayNumber(GridDate(y, m, k)) == MonthStart(FullYear(y), m) - StartDay(FullYear(y), m) + k
    ensures DayNumber(GridDate(y, m, k + 1)) == DayNumber(GridDate(y, m, k)) + 1
    ensures WeekDay(DayNumber(GridDate(y, m, k))) == k % 7
  {
    var fy := FullYear(y);
    assert fy + m / 12 == fy && m % 12 == m;
    var a := MonthStart(fy, m);
    var s := StartDay(fy, m);
    assert MakeDay(fy, m, 1) == a;
    NewDateDayNumber(y, m, k - s + 1);
    NewDateDayNumber(y, m, k + 1 - s + 1);
    WeekColumn(a, s, k);
  }

  /** What each position holds: before the first `s` positions' end, the last days of the
      previous month in increasing order; then days 1 to the month's length; then days 1, 2, ...
      of the next month. All of them lie around month `m` of `FullYear(y)`. */
  lemma GridCells(y: int, m: int, k: int)
    requires 0 <= m < 12 && 0 <= k < StartDay(FullYear(y), m) + DaysInMonth(FullYear(y), m) + 7
    ensures k < StartDay(FullYear(y), m) ==>
              GridDate(y, m, k) == CivilDate(PrevMonth(FullYear(y), m).0, PrevMonth(FullYear(y), m).1,
                                             DaysInMonth(PrevMonth(FullYear(y), m).0, PrevMonth(FullYear(y), m).1) - StartDay(FullYear(y), m) + k + 1)
    ensures StartDay(FullYear(y), m) <= k < StartDay(FullYear(y), m) + DaysInMonth(FullYear(y), m) ==>
              GridDate(y, m, k) == CivilDate(FullYear(y), m, k - StartDay(FullYear(y), m) + 1)
    ensures StartDay(FullYear(y), m) + DaysInMonth(FullYear(y), m) <= k ==>
              GridDate(y, m, k) == CivilDate(NextMonth(FullYear(y), m).0, NextMonth(FullYear(y), m).1,
                                             k - StartDay(FullYear(y), m) - DaysInMonth(FullYear(y), m) + 1)
  {
    var fy := FullYear(y);
    var s := StartDay(fy, m);
    var d := k - s + 1;
    if k < s {
      NewDatePrevMonth(y, m, d);
    } else if k < s + DaysInMonth(fy, m) {
      NewDateInMonth(y, m, d);
    } else {
      NewDateNextMonth(y, m, d - DaysInMonth(fy, m));
      assert DaysInMonth(fy, m) + (d - DaysInMonth(fy, m)) == d;
    }
  }

  /** What the source reads off the first and the last day of the month: `getDay` of the 1st,
      and `getDate` and `getDay` of day 0 of the next month, all in year `FullYear(y)`. */
  lemma MonthEnds(y: int, m: int)
    requires 0 <= m < 12
    ensures NewDate(y, m, 1) == CivilDate(FullYear(y), m, 1)
    ensures NewDate(y, m + 1, 0) == CivilDate(FullYear(y), m, DaysInMonth(FullYear(y), m))
    ensures WeekDay(DayNumber(NewDate(y, m, 1))) == StartDay(FullYear(y), m)
    ensures WeekDay(DayNumber(NewDate(y, m + 1, 0))) == EndDay(FullYear(y), m)
  {
    var fy := FullYear(y);
    NewDateInMonth(y, m, 1);
    LastDayOfMonth(y, m);
    assert fy + m / 12 == fy && m % 12 == m;
  }

  /** The dates of the next month that the third loop of `getDaysInMonth` builds continue the
      month: day `i` of `month + 1` is day `length + i` of `month`. */
  lemma TrailingDate(y: int, m: int, i: int)
    requires 0 <= m < 12 && 1 <= i <= 28
    ensures NewDate(y, m + 1, i) == NewDate(y, m, DaysInMonth(FullYear(y), m) + i)
  {
    NewDateMonthAfter(y, m, i);
    NewDateNextMonth(y, m, i);
  }

  /** The padded grid of `getDaysInMonth` fills whole weeks: its length, `s` leading days, the
      month and `6 - e` trailing days (with `e` the week day of the last day), is a multiple of 7
      between 28 and 42. */
  lemma PaddedGridShape(y: int, m: int)
    requires 0 <= m < 12
    ensures (StartDay(y, m) + DaysInMonth(y, m) + (6 - EndDay(y, m))) % 7 == 0
    ensures 28 <= StartDay(y, m) + DaysInMonth(y, m) + (6 - EndDay(y, m)) <= 42
  {
    assert y + m / 12 == y && m % 12 == m;
    var a := MonthStart(y, m);
    var n := DaysInMonth(y, m);
    assert MakeDay(y, m, 1) == a;
    assert MakeDay(y, m, n) == a + n - 1;
    WholeWeeks(a, n, StartDay(y, m), EndDay(y, m));
  }
}

/** `CalendarBody` (src/components/Calendar/CalendarBody.tsx): the cells of the month view, `null`
    for each blank before the 1st and then the day numbers. */
module CalendarBody {
  import opened Wrappers
  import opened JsDates
  import opened CalendarGrid

  /** The cells of the month of `current`: as many blanks as the week day of the 1st, then days
      1 to the month's length in order, and nothing after. Each day sits at its grid position. */
  method CalendarDays(current: CivilDate) returns (cells: seq<Option<int>>)
    requires ValidDate(current)
    ensures |cells| == StartDay(FullYear(current.year), current.month) + DaysInMonth(FullYear(current.year), current.month)
    ensures forall k :: 0 <= k < StartDay(FullYear(current.year), current.month) ==> cells[k].None?
    ensures forall k :: StartDay(FullYear(current.year), current.month) <= k < |cells| ==>
              cells[k] == Some(k - StartDay(FullYear(current.year), current.month) + 1)
    ensures forall k :: StartDay(FullYear(current.year), current.month) <= k < |cells| ==>
              GridDate(current.year, current.month, k) == CivilDate(FullYear(current.year), current.month, cells[k].value)
  {
    var year := current.year;
    var month := current.month;
    var firstDayOfMonth := NewDate(year, month, 1);
    var lastDayOfMonth := NewDate(year, month + 1, 0);
    NewDateInMonth(year, month, 1);
    LastDayOfMonth(year, month);
    var startDay := WeekDay(DayNumber(firstDayOfMonth));
    var daysInMonth := lastDayOfMonth.date;
    cells := seq(startDay, _ => None);
    var day := 1;
    while day <= daysInMonth
      invariant 1 <= day <= daysInMonth + 1
      invariant |cells| == startDay + day - 1
      invariant forall k :: 0 <= k < startDay ==> cells[k].None?
      invariant forall k :: startDay <= k < |cells| ==> cells[k] == Some(k - startDay + 1)
    {
      cells := cells + [Some(day)];
      day := day + 1;
    }
    forall k | startDay <= k < |cells|
      ensures GridDate(year, month, k) == CivilDate(FullYear(year), month, cells[k].value)
    {
      GridCells(year, month, k);
    }
  }

  /** The class of a cell: blanks are marked `empty`; a day keeps the trailing space of the
      template. */
  function CellClass(cell: Option<int>): (c: string)
    ensures cell.Some? && cell.value != 0 ==> c == "calendar-day "
    ensures cell.None? ==> c == "calendar-day empty"
  {
    "calendar-day " + (if cell.Some? && cell.value != 0 then "" else "empty")
  }
}

/** `getDaysInMonth` and `getDayLabels` (src/utils/dateUtils.ts). */
module DateUtils {
  import opened JsDates
  import opened CalendarGrid

  /** An entry of the padded grid. */
  datatype DayEntry = DayEntry(date: CivilDate, isCurrentMonth: bool)

  /** The first loop of `getDaysInMonth`: the last `startDayOfWeek` days of the previous
      month, oldest first. */
  method LeadingDays(year: int, month: int, startDayOfWeek: int) returns (days: seq<DayEntry>)
    requires 0 <= month < 12 && startDayOfWeek == StartDay(FullYear(year), month)
    ensures |days| == startDayOfWeek
    ensures forall k :: 0 <= k < |days| ==> days[k] == DayEntry(NewDate(year, month, k - startDayOfWeek + 1), false)
  {
    days := [];
    var i := startDayOfWeek - 1;
    while i >= 0
      invariant -1 <= i < startDayOfWeek
      invariant |days| == startDayOfWeek - 1 - i
      invariant forall k :: 0 <= k < |days| ==> days[k] == DayEntry(NewDate(year, month, k - startDayOfWeek + 1), false)
    {
      days := days + [DayEntry(NewDate(year, month, -i), false)];
      i := i - 1;
    }
  }

  /** The second loop: days 1 to `lastDate` of the month itself, appended to `before`. */
  method CurrentDays(year: int, month: int, before: seq<DayEntry>, lastDate: int) returns (days: seq<DayEntry>)
    requires 0 <= month < 12 && lastDate == DaysInMonth(FullYear(year), month)
    ensures |days| == |before| + lastDate
    ensures days[..|before|] == before
    ensures forall k :: |before| <= k < |days| ==> days[k] == DayEntry(NewDate(year, month, k - |before| + 1), true)
  {
    days := before;
    var i := 1;
    while i <= lastDate
      invariant 1 <= i <= lastDate + 1
      invariant |days| == |before| + i - 1
      invariant days[..|before|] == before
      invariant forall k :: |before| <= k < |days| ==> days[k] == DayEntry(NewDate(year, month, k - |before| + 1), true)
    {
      days := days + [DayEntry(NewDate(year, month, i), true)];
      i := i + 1;
    }
  }

  /** The third loop: the first `6 - endDayOfWeek` days of the next month, given as days of
      `month + 1`, appended to `before`. */
  method TrailingDays(year: int, month: int, before: seq<DayEntry>, endDayOfWeek: int) returns (days: seq<DayEntry>)
    requires 0 <= month < 12 && endDayOfWeek == EndDay(FullYear(year), month)
    ensures |days| == |before| + (6 - endDayOfWeek)
    ensures days[..|before|] == before
    ensures forall k :: |before| <= k < |days| ==> days[k] == DayEntry(NewDate(year, month + 1, k - |before| + 1), false)
  {
    days := before;
    var i := 1;
    while i < 7 - endDayOfWeek
      invariant 1 <= i <= 7 - endDayOfWeek
      invariant |days| == |before| + i - 1
      invariant days[..|before|] == before
      invariant forall k :: |before| <= k < |days| ==> days[k] == DayEntry(NewDate(year, month + 1, k - |before| + 1), false)
    {
      days := days + [DayEntry(NewDate(year, month + 1, i), false)];
      i := i + 1;
    }
  }

  /** `getDaysInMonth`: the month of `date` padded to whole weeks with the end of the previous
      month and the start of the next. Entry `k` is the grid date at `k`, flagged current exactly
      for the days of the month. */
  method GetDaysInMonth(date: CivilDate) returns (days: seq<DayEntry>)
    requires ValidDate(date)
    ensures |days| == StartDay(FullYear(date.year), date.month) + DaysInMonth(FullYear(date.year), date.month)
                      + (6 - EndDay(FullYear(date.year), date.month))
    ensures forall k :: 0 <= k < |days| ==> days[k].date == GridDate(date.year, date.month, k)
    ensures forall k :: 0 <= k < |days| ==>
              (days[k].isCurrentMonth <==>
                 StartDay(FullYear(date.year), date.month) <= k < StartDay(FullYear(date.year), date.month) + DaysInMonth(FullYear(date.year), date.month))
  {
    var year := date.year;
    var month := date.month;
    var startOfMonth := NewDate(year, month, 1);
    var endOfMonth := NewDate(year, month + 1, 0);
    MonthEnds(year, month);
    ghost var s := StartDay(FullYear(year), month);
    ghost var n := DaysInMonth(FullYear(year), month);

    var leading := LeadingDays(year, month, WeekDay(DayNumber(startOfMonth)));
    var current := CurrentDays(year, month, leading, endOfMonth.date);
    days := TrailingDays(year, month, current, WeekDay(DayNumber(endOfMonth)));
    forall k | 0 <= k < |days|
      ensures days[k].date == NewDate(year, month, k - s + 1)
      ensures days[k].isCurrentMonth <==> s <= k < s + n
    {
      if k < s {
        assert days[k] == current[k] == leading[k];
      } else if k < s + n {
        assert days[k] == current[k];
      } else {
        TrailingDate(year, month, k - s - n + 1);
      }
    }
  }


  /** `getDayLabels`: the week days from Sunday, indexed like `getDay`. */
  function DayLabels(): (labels: seq<string>)
    ensures |labels| == 7
    ensures labels[0] == "Sun" && labels[6] == "Sat"
  {
    ["Sun", "Mon", "Tue", "Wed", "Thu", "Fri", "Sat"]
  }

  /** The labels name the days `getDay` numbers: 1 January 1970 is labelled Thursday, and the
      first column of every grid is labelled Sunday. */
  lemma LabelsMatchWeekDays(y: int, m: int)
    requires 0 <= m < 12
    ensures DayLabels()[WeekDay(DayFromYear(1970))] == "Thu"
    ensures DayLabels()[WeekDay(DayNumber(GridDate(y, m, 0)))] == "Sun"
  {
    KnownDates();
    GridConsecutive(y, m, 0);
  }
}
