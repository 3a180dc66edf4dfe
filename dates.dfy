/**
 * The part of the JavaScript Date class the application relies on: a calendar
 * day read through getFullYear, getMonth (0 = January ... 11 = December) and
 * getDate, the weekday read through getDay (0 = Sunday), and the overflow
 * normalisation of `new Date(year, month, day)`. Time of day and time zones
 * never matter to the application, so a date is a plain triple. Day counting
 * follows the proleptic Gregorian calendar of ECMA-262, section 21.4.1
 * (DayFromYear, DaysInYear, MakeDay, WeekDay).
 */
module Dates {

  datatype Ymd = Ymd(year: int, month: int, day: int)

  predicate IsLeapYear(y: int) {
    y % 4 == 0 && (y % 100 != 0 || y % 400 == 0)
  }

  function DaysInYear(y: int): int {
    if IsLeapYear(y) then 366 else 365
  }

  /** Length of month `m` (0-based) of year `y`. */
  function DaysInMonth(y: int, m: int): (n: int)
    requires 0 <= m < 12
    ensures 28 <= n <= 31
    ensures n == 28 <==> m == 1 && !IsLeapYear(y)
    ensures n == 29 <==> m == 1 && IsLeapYear(y)
    ensures n == 30 <==> m == 3 || m == 5 || m == 8 || m == 10
  {
    if m == 1 then (if IsLeapYear(y) then 29 else 28)
    else if m == 3 || m == 5 || m == 8 || m == 10 then 30
    else 31
  }

  predicate IsCalendarDay(d: Ymd) {
    0 <= d.month < 12 && 1 <= d.day <= DaysInMonth(d.year, d.month)
  }

  /** A day that exists in the calendar: what every JavaScript Date denotes. */
  type Date = d: Ymd | IsCalendarDay(d) witness Ymd(1970, 0, 1)

  /** The month before and the month after (year, month), rolling the year over. */
  function MonthBefore(y: int, m: int): (r: (int, int))
    requires 0 <= m < 12
    ensures 0 <= r.1 < 12
    ensures r.0 * 12 + r.1 == y * 12 + m - 1
  {
    if m == 0 then (y - 1, 11) else (y, m - 1)
  }

  function MonthAfter(y: int, m: int): (r: (int, int))
    requires 0 <= m < 12
    ensures 0 <= r.1 < 12
    ensures r.0 * 12 + r.1 == y * 12 + m + 1
  {
    if m == 11 then (y + 1, 0) else (y, m + 1)
  }

  /** The next calendar day. */
  function Succ(d: Date): Date {
    if d.day < DaysInMonth(d.year, d.month) then Ymd(d.year, d.month, d.day + 1)
    else if d.month < 11 then Ymd(d.year, d.month + 1, 1)
    else Ymd(d.year + 1, 0, 1)
  }

  /** The previous calendar day. */
  function Pred(d: Date): Date {
    if d.day > 1 then Ymd(d.year, d.month, d.day - 1)
    else if d.month > 0 then Ymd(d.year, d.month - 1, DaysInMonth(d.year, d.month - 1))
    else Ymd(d.year - 1, 11, 31)
  }

  lemma SuccPredInverse(d: Date)
    ensures Pred(Succ(d)) == d
    ensures Succ(Pred(d)) == d
  {
  }

  /** ECMA-262 DayFromYear: the day number of January 1st of `y`, day 0 being 1970-01-01. */
  function DayFromYear(y: int): int {
    365 * (y - 1970) + (y - 1969) / 4 - (y - 1901) / 100 + (y - 1601) / 400
  }

  /** Days of year `y` before the 1st of month `m`. */
  function DaysBeforeMonth(y: int, m: int): (n: int)
    requires 0 <= m <= 12
    ensures m == 0 ==> n == 0
    ensures m == 12 ==> n == DaysInYear(y)
  {
    var table := [0, 31, 59, 90, 120, 151, 181, 212, 243, 273, 304, 334, 365];
    table[m] + (if m >= 2 && IsLeapYear(y) then 1 else 0)
  }

  lemma DaysBeforeMonthStep(y: int, m: int)
    requires 0 <= m < 12
    ensures DaysBeforeMonth(y, m + 1) == DaysBeforeMonth(y, m) + DaysInMonth(y, m)
  {
  }

  /** ECMA-262 Day(MakeDate(MakeDay(y, m, d), 0)): days since 1970-01-01. */
  function DayNumber(d: Date): int {
    DayFromYear(d.year) + DaysBeforeMonth(d.year, d.month) + d.day - 1
  }

  /** ECMA-262 WeekDay, as returned by getDay: 0 = Sunday ... 6 = Saturday. */
  function Weekday(d: Date): (w: int)
    ensures 0 <= w < 7
  {
    (DayNumber(d) + 4) % 7
  }

  /** A year adds exactly its own length to the day count. */
  lemma DayFromYearStep(y: int)
    ensures DayFromYear(y + 1) == DayFromYear(y) + DaysInYear(y)
  {
    CycleStep(y, 4, 492);
    CycleStep(y, 100, 19);
    CycleStep(y, 400, 4);
  }

  /** Passing a year that is a multiple of c adds one to floor((y - c * k) / c). */
  lemma CycleStep(y: int, c: int, k: int)
    requires c > 0
    ensures (y - c * k) / c - (y - c * k - 1) / c == (if y % c == 0 then 1 else 0)
  {
    var q, r := y / c, y % c;
    assert y - c * k == c * (q - k) + r;
    if r == 0 {
      DivModUnique(y - c * k, c, q - k, 0);
      DivModUnique(y - c * k - 1, c, q - k - 1, c - 1);
    } else {
      DivModUnique(y - c * k, c, q - k, r);
      DivModUnique(y - c * k - 1, c, q - k, r - 1);
    }
  }

  lemma ShiftMod(a: int, k: int, c: int)
    requires c > 0
    ensures (a + k * c) % c == a % c
  {
    var q, r := a / c, a % c;
    assert a == c * q + r;
    assert a + k * c == c * (q + k) + r;
    DivModUnique(a + k * c, c, q + k, r);
  }

  lemma DivModUnique(a: int, c: int, q: int, r: int)
    requires c > 0 && 0 <= r < c && a == c * q + r
    ensures a / c == q && a % c == r
  {
    var q', r' := a / c, a % c;
    assert a == c * q' + r' && 0 <= r' < c;
    if q > q' {
      MulAtLeast(c, q - q');
    } else if q < q' {
      MulAtLeast(c, q' - q);
    }
  }

  lemma {:induction false} MulAtLeast(c: int, k: int)
    requires c > 0 && k >= 1
    ensures c * k >= c
    decreases k
  {
    if k > 1 {
      MulAtLeast(c, k - 1);
      assert c * k == c * (k - 1) + c;
    }
  }

  lemma SuccDayNumber(d: Date)
    ensures DayNumber(Succ(d)) == DayNumber(d) + 1
  {
    if d.day < DaysInMonth(d.year, d.month) {
    } else if d.month < 11 {
      DaysBeforeMonthStep(d.year, d.month);
    } else {
      DayFromYearStep(d.year);
    }
  }

  lemma PredDayNumber(d: Date)
    ensures DayNumber(Pred(d)) == DayNumber(d) - 1
  {
    SuccPredInverse(d);
    SuccDayNumber(Pred(d));
  }

  lemma WeekdaySucc(d: Date)
    ensures Weekday(Succ(d)) == (Weekday(d) + 1) % 7
  {
    SuccDayNumber(d);
    var n := DayNumber(d) + 4;
    var q, r := n / 7, n % 7;
    if r == 6 {
      DivModUnique(n + 1, 7, q + 1, 0);
    } else {
      DivModUnique(n + 1, 7, q, r + 1);
    }
  }

  /** `d` moved by `n` days, forwards or backwards. */
  function AddDays(d: Date, n: int): Date
    decreases if n < 0 then -n else n
  {
    if n == 0 then d
    else if n > 0 then AddDays(Succ(d), n - 1)
    else AddDays(Pred(d), n + 1)
  }

  lemma {:induction false} AddDaysDayNumber(d: Date, n: int)
    ensures DayNumber(AddDays(d, n)) == DayNumber(d) + n
    decreases if n < 0 then -n else n
  {
    if n > 0 {
      SuccDayNumber(d);
      AddDaysDayNumber(Succ(d), n - 1);
    } else if n < 0 {
      PredDayNumber(d);
      AddDaysDayNumber(Pred(d), n + 1);
    }
  }

  lemma {:induction false} AddDaysForwardInMonth(d: Date, j: nat)
    requires d.day + j <= DaysInMonth(d.year, d.month)
    ensures AddDays(d, j) == Ymd(d.year, d.month, d.day + j)
    decreases j
  {
    if j > 0 {
      AddDaysForwardInMonth(Succ(d), j - 1);
    }
  }

  lemma {:induction false} AddDaysBackwardInMonth(d: Date, j: nat)
    requires j < d.day
    ensures AddDays(d, -(j as int)) == Ymd(d.year, d.month, d.day - j)
    decreases j
  {
    if j > 0 {
      AddDaysBackwardInMonth(Pred(d), j - 1);
    }
  }

  lemma {:induction false} AddDaysSuccLast(d: Date, n: nat)
    ensures AddDays(d, n + 1) == Succ(AddDays(d, n))
    decreases n
  {
    if n > 0 {
      AddDaysSuccLast(Succ(d), n - 1);
    }
  }

  /**
   * ECMA-262 MakeDay as `new Date(y, m, day)` applies it: the month index is
   * first normalised into the year (y + floor(m / 12), m modulo 12), then the
   * day counts from the 1st of that month, so day 0 is the last day of the
   * month before and day 32 runs into the month after.
   */
  function MakeDate(y: int, m: int, day: int): (r: Date)
    ensures 0 <= m < 12 && 1 <= day <= DaysInMonth(y, m) ==> r == Ymd(y, m, day)
  {
    if 0 <= m < 12 && 1 <= day <= DaysInMonth(y, m) then
      AddDaysForwardInMonth(Ymd(y, m, 1), day - 1);
      AddDays(Ymd(y + m / 12, m % 12, 1), day - 1)
    else
      AddDays(Ymd(y + m / 12, m % 12, 1), day - 1)
  }

  /** In range or not, the result is MakeDay's day number: day - 1 days after the 1st of the normalised month. */
  lemma MakeDateDayNumber(y: int, m: int, day: int)
    ensures DayNumber(MakeDate(y, m, day)) == DayFromYear(y + m / 12) + DaysBeforeMonth(y + m / 12, m % 12) + day - 1
  {
    AddDaysDayNumber(Ymd(y + m / 12, m % 12, 1), day - 1);
  }

  /**
   * `new Date(y, m, day)` as the Date constructor of ECMA-262 (section
   * 21.4.2.1) defines it: a year argument from 0 to 99 is read as 1900 + y
   * before MakeDay runs.
   */
  function ConstructDate(y: int, m: int, day: int): (r: Date)
    ensures var fullYear := if 0 <= y <= 99 then 1900 + y else y;
      0 <= m < 12 && 1 <= day <= DaysInMonth(fullYear, m) ==> r == Ymd(fullYear, m, day)
  {
    MakeDate(if 0 <= y <= 99 then 1900 + y else y, m, day)
  }

  /** `new Date(y, m, 0 - i)`: the i-th day counted back from the last of the month before. */
  lemma MakeDateBeforeMonth(y: int, m: int, i: int)
    requires 0 <= m < 12
    requires 0 <= i < DaysInMonth(MonthBefore(y, m).0, MonthBefore(y, m).1)
    ensures var (py, pm) := MonthBefore(y, m);
      MakeDate(y, m, 0 - i) == Ymd(py, pm, DaysInMonth(py, pm) - i)
  {
    var first: Date := Ymd(y, m, 1);
    assert AddDays(first, -1 - i) == AddDays(Pred(first), -i);
    AddDaysBackwardInMonth(Pred(first), i);
  }

  /** `new Date(y, m + 1, i)`: day i of the month after. */
  lemma MakeDateNextMonth(y: int, m: int, i: int)
    requires 0 <= m < 12
    requires 1 <= i <= DaysInMonth(MonthAfter(y, m).0, MonthAfter(y, m).1)
    ensures MakeDate(y, m + 1, i) == Ymd(MonthAfter(y, m).0, MonthAfter(y, m).1, i)
  {
    assert MakeDate(y, m + 1, i) == MakeDate(MonthAfter(y, m).0, MonthAfter(y, m).1, i);
  }

  /** `new Date(y, m + 1, 0)`: the last day of month m. */
  lemma MakeDateLastOfMonth(y: int, m: int)
    requires 0 <= m < 12
    ensures MakeDate(y, m + 1, 0) == Ymd(y, m, DaysInMonth(y, m))
  {
    var (ny, nm) := MonthAfter(y, m);
    assert AddDays(Ymd(ny, nm, 1), -1) == Pred(Ymd(ny, nm, 1));
  }

  /** `new Date(d.year, d.month, d.day + 1)`: the next calendar day. */
  lemma MakeDateNextDay(d: Date)
    ensures MakeDate(d.year, d.month, d.day + 1) == Succ(d)
  {
    var first: Date := Ymd(d.year, d.month, 1);
    assert MakeDate(d.year, d.month, d.day + 1) == AddDays(first, d.day);
    AddDaysSuccLast(first, d.day - 1);
    AddDaysForwardInMonth(first, d.day - 1);
    assert AddDays(first, d.day - 1) == d;
  }

  /** `new Date(y, m - 1, 1)` and `new Date(y, m + 1, 1)`: the 1st of the neighbouring months. */
  lemma MakeDateNeighbourMonths(y: int, m: int)
    requires 0 <= m < 12
    ensures MakeDate(y, m - 1, 1) == Ymd(MonthBefore(y, m).0, MonthBefore(y, m).1, 1)
    ensures MakeDate(y, m + 1, 1) == Ymd(MonthAfter(y, m).0, MonthAfter(y, m).1, 1)
  {
  }

  /** Going one month forward and then one back returns to the 1st of the month. */
  lemma NextThenPreviousMonth(y: int, m: int)
    requires 0 <= m < 12
    ensures var next := MakeDate(y, m + 1, 1);
      MakeDate(next.year, next.month - 1, 1) == Ymd(y, m, 1)
  {
    MakeDateNeighbourMonths(y, m);
    var (ny, nm) := MonthAfter(y, m);
    MakeDateNeighbourMonths(ny, nm);
  }

  lemma PreviousThenNextMonth(y: int, m: int)
    requires 0 <= m < 12
    ensures var prev := MakeDate(y, m - 1, 1);
      MakeDate(prev.year, prev.month + 1, 1) == Ymd(y, m, 1)
  {
    MakeDateNeighbourMonths(y, m);
    var (py, pm) := MonthBefore(y, m);
    MakeDateNeighbourMonths(py, pm);
  }

  /**
   * With the Date constructor's two-digit-year rule, going back from January
   * of year 100 lands on December of year 99, and a `new Date` built from
   * that year reads it as 1999: the month shown is December 1999 and one step
   * forward gives January 2000 instead of January 100.
   */
  lemma TwoDigitYearRoundTrip()
    ensures var prev := ConstructDate(100, 0 - 1, 1);
      && prev == Ymd(99, 11, 1)
      && ConstructDate(prev.year, prev.month, 1) == Ymd(1999, 11, 1)
      && ConstructDate(prev.year, prev.month + 1, 1) == Ymd(2000, 0, 1)
      && ConstructDate(prev.year, prev.month + 1, 1) != Ymd(100, 0, 1)
  {
  }
}
