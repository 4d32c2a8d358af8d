/** The date picker of the add-crop screen (`AddHortalicaScreen.js`): the
    `YYYY-MM-DD` text of a chosen day, the length and first weekday of the
    displayed month, stepping to the previous or next month, and the grid of
    blank and day cells.

    The screen works through JavaScript's `Date`. Its calendar is the
    proleptic Gregorian one, and its constructor `new Date(y, m, d)` first
    maps a year 0..99 to 1900 + y, then carries an out-of-range month index
    into the year. Both rules are written out here. Time of day, time zones
    and the limits of the `Date` range are not modelled. */
module Picker {
  import opened Values
  import opened Text

  /** A calendar day as the `Date` getters report it: full year, zero-based
      month index (0 = January) and day of the month. */
  datatype CalendarDate = CalendarDate(year: int, month: int, day: int)

  /** The month the picker shows (`currentMonth`): full year and zero-based
      month index. */
  datatype YearMonth = YearMonth(year: int, month: int) {
    predicate Valid() {
      0 <= month < 12
    }
  }

  // ---------------------------------------------------------------------
  // The Gregorian calendar.

  predicate IsLeap(y: int) {
    y % 4 == 0 && (y % 100 != 0 || y % 400 == 0)
  }

  /** The number of days of month `m` (zero-based) in year `y`. */
  function MonthLength(y: int, m: int): int
    requires 0 <= m < 12
  {
    if m == 1 then (if IsLeap(y) then 29 else 28)
    else if m == 3 || m == 5 || m == 8 || m == 10 then 30
    else 31
  }

  /** Days in the months of year `y` before month `m`. */
  function DaysBeforeMonth(y: int, m: int): int
    requires 0 <= m < 12
  {
    [0, 31, 59, 90, 120, 151, 181, 212, 243, 273, 304, 334][m]
    + (if m >= 2 && IsLeap(y) then 1 else 0)
  }

  /** Leap years in the range [0, y) (negative for negative `y`). */
  function LeapsBefore(y: int): int {
    (y + 3) / 4 - (y + 99) / 100 + (y + 399) / 400
  }

  /** Days from 1 January of year 0 to 1 January of year `y`. */
  function DaysBeforeYear(y: int): int {
    365 * y + LeapsBefore(y)
  }

  /** The day number of a date, counted from 1 January of year 0. */
  function DayNumber(y: int, m: int, d: int): int
    requires 0 <= m < 12
  {
    DaysBeforeYear(y) + DaysBeforeMonth(y, m) + d - 1
  }

  /** `getDay()`: 0 = Sunday … 6 = Saturday. The offset makes 1 January 1970
      a Thursday. */
  function Weekday(dayNumber: int): (w: int)
    ensures 0 <= w < 7
  {
    (dayNumber + 6) % 7
  }

  /** 1 January 1970, the origin of JavaScript time, is a Thursday. */
  lemma EpochIsThursday()
    ensures Weekday(DayNumber(1970, 0, 1)) == 4
  {
  }

  /** A year has 366 days when it is a leap year and 365 otherwise. */
  lemma YearLength(y: int)
    ensures DaysBeforeYear(y + 1) - DaysBeforeYear(y) == if IsLeap(y) then 366 else 365
  {
    MultiplesStep4(y);
    MultiplesStep100(y);
    MultiplesStep400(y);
    var step := LeapsBefore(y + 1) - LeapsBefore(y);
    assert step == (if y % 4 == 0 then 1 else 0) - (if y % 100 == 0 then 1 else 0)
                   + (if y % 400 == 0 then 1 else 0);
    if y % 400 == 0 {
      MultipleOf400(y);
    } else if y % 100 == 0 {
      MultipleOf100(y);
    }
  }

  lemma MultipleOf400(y: int)
    requires y % 400 == 0
    ensures y % 100 == 0 && y % 4 == 0
  {
  }

  lemma MultipleOf100(y: int)
    requires y % 100 == 0
    ensures y % 4 == 0
  {
  }

  // Counting the multiples of 4, 100 and 400 below `y + 1` instead of below
  // `y` adds one exactly when `y` is such a multiple.

  lemma MultiplesStep4(y: int)
    ensures (y + 4) / 4 - (y + 3) / 4 == if y % 4 == 0 then 1 else 0
  {
  }

  lemma MultiplesStep100(y: int)
    ensures (y + 100) / 100 - (y + 99) / 100 == if y % 100 == 0 then 1 else 0
  {
  }

  lemma MultiplesStep400(y: int)
    ensures (y + 400) / 400 - (y + 399) / 400 == if y % 400 == 0 then 1 else 0
  {
  }

  /** The first day of the following month comes exactly one month length
      after the first day of this month, across the year boundary too. */
  lemma FirstOfFollowingMonth(y: int, m: int)
    requires 0 <= m < 12
    ensures m < 11 ==> DayNumber(y, m + 1, 1) == DayNumber(y, m, 1) + MonthLength(y, m)
    ensures m == 11 ==> DayNumber(y + 1, 0, 1) == DayNumber(y, m, 1) + MonthLength(y, m)
  {
    if m == 11 {
      YearLength(y);
    }
  }

  // ---------------------------------------------------------------------
  // The `Date` constructor.

  /** `new Date(y, …)` reads a year 0..99 as 1900 + y. */
  function ConstructorYear(y: int): int {
    if 0 <= y <= 99 then 1900 + y else y
  }

  /** The month `new Date(y, m)` lands on: the year is mapped by
      `ConstructorYear`, then a month index outside 0..11 is carried into the
      year. */
  function MonthOf(y: int, m: int): (r: YearMonth)
    ensures r.Valid()
    ensures r.year * 12 + r.month == ConstructorYear(y) * 12 + m
  {
    YearMonth(ConstructorYear(y) + m / 12, m % 12)
  }

  /** `getDaysInMonth`: the day before day 1 of the next month, that is, the
      length of the displayed month. */
  function GetDaysInMonth(ym: YearMonth): (n: int)
    requires ym.Valid()
    ensures 28 <= n <= 31
    ensures n == 29 <==> ym.month == 1 && IsLeap(ConstructorYear(ym.year))
    ensures n == 28 <==> ym.month == 1 && !IsLeap(ConstructorYear(ym.year))
    ensures n == 30 <==> ym.month in {3, 5, 8, 10}
  {
    MonthLength(ConstructorYear(ym.year), ym.month)
  }

  /** `getFirstDayOfMonth`: the weekday of day 1 of the displayed month. */
  function GetFirstDayOfMonth(ym: YearMonth): (w: int)
    requires ym.Valid()
    ensures 0 <= w < 7
  {
    Weekday(DayNumber(ConstructorYear(ym.year), ym.month, 1))
  }

  /** `handlePreviousMonth`. */
  function PreviousMonth(ym: YearMonth): (r: YearMonth)
    requires ym.Valid()
    ensures r.Valid()
    ensures ym.month > 0 ==> r == YearMonth(ConstructorYear(ym.year), ym.month - 1)
    ensures ym.month == 0 ==> r == YearMonth(ConstructorYear(ym.year) - 1, 11)
  {
    MonthOf(ym.year, ym.month - 1)
  }

  /** `handleNextMonth`. */
  function NextMonth(ym: YearMonth): (r: YearMonth)
    requires ym.Valid()
    ensures r.Valid()
    ensures ym.month < 11 ==> r == YearMonth(ConstructorYear(ym.year), ym.month + 1)
    ensures ym.month == 11 ==> r == YearMonth(ConstructorYear(ym.year) + 1, 0)
  {
    MonthOf(ym.year, ym.month + 1)
  }

  /** Stepping back and then forward returns to the same month, for every
      year outside the two-digit window of the constructor. */
  lemma NextAfterPrevious(ym: YearMonth)
    requires ym.Valid()
    requires ym.year < 0 || ym.year > 100
    ensures NextMonth(PreviousMonth(ym)) == ym
  {
  }

  /** Stepping forward and then back returns to the same month, for every
      year outside the two-digit window of the constructor. */
  lemma PreviousAfterNext(ym: YearMonth)
    requires ym.Valid()
    requires ym.year < -1 || ym.year > 99
    ensures PreviousMonth(NextMonth(ym)) == ym
  {
  }

  /** The two-digit window is real: from January of year 100, one step back
      lands on December of year 99, which the next step reads as 1999. */
  lemma TwoDigitYearBreaksRoundTrip()
    ensures PreviousMonth(YearMonth(100, 0)) == YearMonth(99, 11)
    ensures NextMonth(PreviousMonth(YearMonth(100, 0))) == YearMonth(2000, 0)
  {
  }

  /** The next month starts on the weekday that follows the last day of
      this month. The only exception is December of year -1, whose next
      month is year 0, which the constructor reads as 1900. */
  lemma FirstWeekdayOfNextMonth(ym: YearMonth)
    requires ym.Valid()
    requires ym.year != -1 || ym.month != 11
    ensures GetFirstDayOfMonth(NextMonth(ym)) == (GetFirstDayOfMonth(ym) + GetDaysInMonth(ym)) % 7
  {
    var y := ConstructorYear(ym.year);
    var next := NextMonth(ym);
    assert ConstructorYear(next.year) == next.year;
    FirstOfFollowingMonth(y, ym.month);
    assert DayNumber(next.year, next.month, 1) == DayNumber(y, ym.month, 1) + MonthLength(y, ym.month);
    WeekdayShift(DayNumber(y, ym.month, 1), MonthLength(y, ym.month));
  }

  /** Moving `n` days ahead moves the weekday `n` places, modulo 7. */
  lemma WeekdayShift(dayNumber: int, n: int)
    ensures Weekday(dayNumber + n) == (Weekday(dayNumber) + n) % 7
  {
  }

  // ---------------------------------------------------------------------
  // The date text.

  /** A date text whose three fields read back as `d`: the year's decimal
      text before the second-to-last '-', then two digits of the one-based
      month, '-', and two digits of the day. */
  predicate ReadsBackAs(s: string, d: CalendarDate) {
    && |s| >= 7
    && ParseDecimal(s[..|s| - 6]) == Some(d.year)
    && s[|s| - 6] == '-' && s[|s| - 3] == '-'
    && AllDigits(s[|s| - 5..|s| - 3]) && DigitsValue(s[|s| - 5..|s| - 3]) == d.month + 1
    && AllDigits(s[|s| - 2..]) && DigitsValue(s[|s| - 2..]) == d.day
  }

  /** `formatDate`: the year's decimal text, then the one-based month and
      the day, each zero-padded to two digits, joined by '-'. For a month of
      the year and a day below 100, whatever the year, the fields read
      back. */
  function FormatDate(d: CalendarDate): (s: string)
    ensures 0 <= d.month < 12 && 0 <= d.day < 100 ==> ReadsBackAs(s, d)
  {
    var y := IntToDecimal(d.year);
    var m := PadStart2(IntToDecimal(d.month + 1));
    var dd := PadStart2(IntToDecimal(d.day));
    if 0 <= d.month < 12 && 0 <= d.day < 100 then
      TwoDigits(d.month + 1);
      TwoDigits(d.day);
      DecimalRoundTrip(d.year);
      DateFields(y, m, dd, d);
      y + "-" + m + "-" + dd
    else
      y + "-" + m + "-" + dd
  }

  /** Joining a year text and two two-digit fields with '-' gives a text
      whose fields read back. */
  lemma DateFields(y: string, m: string, dd: string, d: CalendarDate)
    requires |y| >= 1 && ParseDecimal(y) == Some(d.year)
    requires |m| == 2 && AllDigits(m) && DigitsValue(m) == d.month + 1
    requires |dd| == 2 && AllDigits(dd) && DigitsValue(dd) == d.day
    ensures ReadsBackAs(y + "-" + m + "-" + dd, d)
  {
    var s := y + "-" + m + "-" + dd;
    assert s[..|s| - 6] == y;
    assert s[|s| - 5..|s| - 3] == m;
    assert s[|s| - 2..] == dd;
  }

  /** Reads a `YYYY-MM-DD` text back into a date with a zero-based month;
      anything of another shape is None. */
  function ParseIsoDate(s: string): Option<CalendarDate> {
    if |s| == 10 && s[4] == '-' && s[7] == '-'
       && AllDigits(s[..4]) && AllDigits(s[5..7]) && AllDigits(s[8..])
    then Some(CalendarDate(DigitsValue(s[..4]), DigitsValue(s[5..7]) - 1, DigitsValue(s[8..])))
    else None
  }

  /** A number 0..99 written by `IntToDecimal` and padded is two digits of
      the same value. */
  lemma TwoDigits(n: int)
    requires 0 <= n < 100
    ensures |PadStart2(IntToDecimal(n))| == 2
    ensures AllDigits(PadStart2(IntToDecimal(n)))
    ensures DigitsValue(PadStart2(IntToDecimal(n))) == n
  {
    NatToDecimalLength(n);
    NatToDecimalValue(n);
    PadStart2Value(IntToDecimal(n));
  }

  /** For a four-digit year the text is exactly `YYYY-MM-DD`, and reading
      it back gives the same date. */
  lemma FormatDateRoundTrip(d: CalendarDate)
    requires 1000 <= d.year <= 9999
    requires 0 <= d.month < 12
    requires 1 <= d.day <= 31
    ensures |FormatDate(d)| == 10
    ensures FormatDate(d)[4] == '-' && FormatDate(d)[7] == '-'
    ensures ParseIsoDate(FormatDate(d)) == Some(d)
  {
    var y := IntToDecimal(d.year);
    var m := PadStart2(IntToDecimal(d.month + 1));
    var dd := PadStart2(IntToDecimal(d.day));
    NatToDecimalLength(d.year);
    NatToDecimalValue(d.year);
    TwoDigits(d.month + 1);
    TwoDigits(d.day);
    IsoFields(y, m, dd);
  }

  /** The three fields of a `YYYY-MM-DD` text sit at fixed positions. */
  lemma IsoFields(y: string, m: string, d: string)
    requires |y| == 4 && |m| == 2 && |d| == 2
    ensures var s := y + "-" + m + "-" + d;
            |s| == 10 && s[4] == '-' && s[7] == '-'
            && s[..4] == y && s[5..7] == m && s[8..] == d
  {
    var s := y + "-" + m + "-" + d;
    assert s[..4] == y;
    assert s[5..7] == m;
    assert s[8..] == d;
  }

  // ---------------------------------------------------------------------
  // The grid and the selection.

  /** A cell of the picker grid: a blank before day 1, or a day with
      whether it is the selected date. */
  datatype Cell = Blank | Day(day: int, selected: bool)

  /** The date of day `day` of the displayed month. */
  function DateIn(ym: YearMonth, day: int): CalendarDate {
    CalendarDate(ConstructorYear(ym.year), ym.month, day)
  }

  /** `renderCalendar`: `firstDay` blank cells, then the days 1 to
      `daysInMonth` in order, each marked when it is the selected date. */
  method RenderCalendar(ym: YearMonth, selectedDate: CalendarDate) returns (cells: seq<Cell>)
    requires ym.Valid()
    ensures |cells| == GetFirstDayOfMonth(ym) + GetDaysInMonth(ym)
    ensures forall i :: 0 <= i < GetFirstDayOfMonth(ym) ==> cells[i] == Blank
    ensures forall i :: GetFirstDayOfMonth(ym) <= i < |cells| ==>
              cells[i] == Day(i - GetFirstDayOfMonth(ym) + 1,
                              selectedDate == DateIn(ym, i - GetFirstDayOfMonth(ym) + 1))
  {
    var daysInMonth := GetDaysInMonth(ym);
    var firstDay := GetFirstDayOfMonth(ym);
    cells := [];
    var i := 0;
    while i < firstDay
      invariant 0 <= i <= firstDay
      invariant |cells| == i
      invariant forall k :: 0 <= k < i ==> cells[k] == Blank
    {
      cells := cells + [Blank];
      i := i + 1;
    }
    var day := 1;
    while day <= daysInMonth
      invariant 1 <= day <= daysInMonth + 1
      invariant |cells| == firstDay + day - 1
      invariant forall k :: 0 <= k < firstDay ==> cells[k] == Blank
      invariant forall k :: firstDay <= k < |cells| ==>
                  cells[k] == Day(k - firstDay + 1, selectedDate == DateIn(ym, k - firstDay + 1))
    {
      cells := cells + [Day(day, selectedDate == DateIn(ym, day))];
      day := day + 1;
    }
  }

  /** Exactly one cell holds each day of the month. */
  lemma EachDayOnce(ym: YearMonth, cells: seq<Cell>, selectedDate: CalendarDate, d: int)
    requires ym.Valid()
    requires |cells| == GetFirstDayOfMonth(ym) + GetDaysInMonth(ym)
    requires forall i :: 0 <= i < GetFirstDayOfMonth(ym) ==> cells[i] == Blank
    requires forall i :: GetFirstDayOfMonth(ym) <= i < |cells| ==>
               cells[i] == Day(i - GetFirstDayOfMonth(ym) + 1,
                               selectedDate == DateIn(ym, i - GetFirstDayOfMonth(ym) + 1))
    requires 1 <= d <= GetDaysInMonth(ym)
    ensures var i := GetFirstDayOfMonth(ym) + d - 1;
            cells[i].Day? && cells[i].day == d
            && forall j :: 0 <= j < |cells| && j != i ==> !(cells[j].Day? && cells[j].day == d)
  {
  }

  /** The picker's part of the screen state. */
  datatype PickerState = PickerState(
    currentMonth: YearMonth,
    selectedDate: CalendarDate,
    dataInicio: string,
    datePickerVisible: bool)

  /** `handleDateSelect(day)` for a day cell of the grid: that day becomes
      the selected date, its text becomes `dataInicio`, and the picker
      closes; the displayed month is kept. */
  function HandleDateSelect(st: PickerState, day: int): (r: PickerState)
    requires st.currentMonth.Valid()
    requires 1 <= day <= GetDaysInMonth(st.currentMonth)
    ensures r.currentMonth == st.currentMonth
    ensures r.selectedDate == DateIn(st.currentMonth, day)
    ensures !r.datePickerVisible
    ensures 1000 <= ConstructorYear(st.currentMonth.year) <= 9999 ==>
              ParseIsoDate(r.dataInicio) == Some(r.selectedDate)
  {
    var d := DateIn(st.currentMonth, day);
    assert 1000 <= d.year <= 9999 ==> ParseIsoDate(FormatDate(d)) == Some(d) by {
      if 1000 <= d.year <= 9999 {
        FormatDateRoundTrip(d);
      }
    }
    PickerState(st.currentMonth, d, FormatDate(d), false)
  }
}
