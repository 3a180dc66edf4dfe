/**
 * What the month grid of calendar.component.ts holds, stated cell by cell:
 * Sunday-first week rows, the tail of the month before, the days of the
 * viewed month, then the days of the month after until the last row is full
 * and there are at least five rows. Every cell carries the store's query for
 * its own day. CalendarComponent.GenerateCalendarGrid builds exactly this.
 */
module CalendarGrid {
  import opened Dates
  import opened Subscriptions

  /** One cell of the visible grid. */
  datatype CalendarDay = CalendarDay(dateObj: Date, dateNumber: int, isCurrentMonth: bool, subscriptions: seq<Subscription>)

  /** Padding cells before the 1st: the weekday of the 1st, Sunday = 0. */
  function LeadingCells(y: int, m: int): int
    requires 0 <= m < 12
  {
    Weekday(Ymd(y, m, 1))
  }

  /** Whole weeks covering the padding and the month, never fewer than five. */
  function GridLength(y: int, m: int): (n: int)
    requires 0 <= m < 12
    ensures n % 7 == 0 && 35 <= n <= 42
    ensures LeadingCells(y, m) + DaysInMonth(y, m) <= n
    ensures n == 35 || n < LeadingCells(y, m) + DaysInMonth(y, m) + 7
  {
    var weeks := (LeadingCells(y, m) + DaysInMonth(y, m) + 6) / 7;
    7 * (if weeks < 5 then 5 else weeks)
  }

  /** The day shown in cell k: the month before, the viewed month, or the month after. */
  function CellDate(y: int, m: int, k: int): Date
    requires 0 <= m < 12 && 0 <= k < GridLength(y, m)
  {
    var lead := LeadingCells(y, m);
    var days := DaysInMonth(y, m);
    if k < lead then
      var (py, pm) := MonthBefore(y, m);
      Ymd(py, pm, DaysInMonth(py, pm) - (lead - 1 - k))
    else if k < lead + days then
      Ymd(y, m, k - lead + 1)
    else
      var (ny, nm) := MonthAfter(y, m);
      Ymd(ny, nm, k - lead - days + 1)
  }

  function GridCell(y: int, m: int, subs: seq<Subscription>, k: int): CalendarDay
    requires 0 <= m < 12 && 0 <= k < GridLength(y, m)
  {
    var d := CellDate(y, m, k);
    var lead := LeadingCells(y, m);
    CalendarDay(d, d.day, lead <= k < lead + DaysInMonth(y, m), SubscriptionsOn(subs, d))
  }

  /** The grid for month m of year y over the store contents `subs`. */
  function Grid(y: int, m: int, subs: seq<Subscription>): (g: seq<CalendarDay>)
    requires 0 <= m < 12
    ensures |g| == GridLength(y, m)
    ensures g[LeadingCells(y, m)] == CalendarDay(Ymd(y, m, 1), 1, true, SubscriptionsOn(subs, Ymd(y, m, 1)))
  {
    seq(GridLength(y, m), k requires 0 <= k < GridLength(y, m) => GridCell(y, m, subs, k))
  }

  lemma ModOffset(x: int, k: int)
    ensures (x + k) % 7 == (x % 7 + k) % 7
  {
    ShiftMod(x % 7 + k, x / 7, 7);
  }

  /** Each cell holds the day after the one in the cell before, across month and year ends. */
  lemma GridDatesConsecutive(y: int, m: int, k: int)
    requires 0 <= m < 12 && 0 <= k && k + 1 < GridLength(y, m)
    ensures CellDate(y, m, k + 1) == Succ(CellDate(y, m, k))
  {
  }

  lemma {:induction false} CellDayNumber(y: int, m: int, k: int)
    requires 0 <= m < 12 && 0 <= k < GridLength(y, m)
    ensures DayNumber(CellDate(y, m, k)) == DayNumber(Ymd(y, m, 1)) + k - LeadingCells(y, m)
    decreases if k < LeadingCells(y, m) then LeadingCells(y, m) - k else k - LeadingCells(y, m)
  {
    var lead := LeadingCells(y, m);
    if k > lead {
      CellDayNumber(y, m, k - 1);
      GridDatesConsecutive(y, m, k - 1);
      SuccDayNumber(CellDate(y, m, k - 1));
    } else if k < lead {
      CellDayNumber(y, m, k + 1);
      GridDatesConsecutive(y, m, k);
      SuccDayNumber(CellDate(y, m, k));
    }
  }

  /** Column k % 7 of the grid is weekday k % 7: the rows are Sunday-first weeks. */
  lemma GridWeekdayColumns(y: int, m: int, k: int)
    requires 0 <= m < 12 && 0 <= k < GridLength(y, m)
    ensures Weekday(CellDate(y, m, k)) == k % 7
  {
    CellDayNumber(y, m, k);
    ColumnOffset(DayNumber(Ymd(y, m, 1)) + 4, k);
  }

  /** Counting k days on from a day x, less x's own weekday, lands on weekday k % 7. */
  lemma ColumnOffset(x: int, k: int)
    ensures (x + k - x % 7) % 7 == k % 7
  {
    ModOffset(x, k - x % 7);
  }

  /**
   * The leading padding: as many cells as the weekday of the 1st, all from the
   * month before (December of the year before for January), the last of them
   * the day before the 1st, followed by the 1st itself.
   */
  lemma GridLeadingPadding(y: int, m: int, subs: seq<Subscription>)
    requires 0 <= m < 12
    ensures var g, lead := Grid(y, m, subs), LeadingCells(y, m);
      && (forall k :: 0 <= k < lead ==>
            !g[k].isCurrentMonth
            && g[k].dateObj.year == MonthBefore(y, m).0
            && g[k].dateObj.month == MonthBefore(y, m).1)
      && (lead > 0 ==> g[lead - 1].dateObj == Pred(Ymd(y, m, 1)))
      && g[lead].dateObj == Ymd(y, m, 1)
      && (m == 0 ==> forall k :: 0 <= k < lead ==> g[k].dateObj.year == y - 1 && g[k].dateObj.month == 11)
  {
  }

  /**
   * isCurrentMonth marks exactly the cells dated in the viewed month, which
   * hold its days 1 to last in order; dateNumber is the day of the month and
   * the subscriptions are the store's query for the cell's own day.
   */
  lemma GridCellFacts(y: int, m: int, subs: seq<Subscription>, k: int)
    requires 0 <= m < 12 && 0 <= k < GridLength(y, m)
    ensures var c := Grid(y, m, subs)[k];
      && (c.isCurrentMonth <==> c.dateObj.year == y && c.dateObj.month == m)
      && (c.isCurrentMonth ==> c.dateObj.day == k - LeadingCells(y, m) + 1)
      && c.dateNumber == c.dateObj.day
      && c.subscriptions == SubscriptionsOn(subs, c.dateObj)
  {
  }

  /** Whatever store it lists, a cell outside the viewed month never has the viewed month's index. */
  lemma PaddingCellsOtherMonthIndex(y: int, m: int)
    requires 0 <= m < 12
    ensures forall subs, c :: c in Grid(y, m, subs) && !c.isCurrentMonth ==> c.dateObj.month != m
  {
    forall subs, c | c in Grid(y, m, subs) && !c.isCurrentMonth ensures c.dateObj.month != m {
      var g := Grid(y, m, subs);
      var k :| 0 <= k < |g| && g[k] == c;
      GridCellFacts(y, m, subs, k);
    }
  }

  /**
   * The trailing block of the builder: with w the weekday of the last day and
   * c the cells so far, "6 - w > 0 and c is not a multiple of 7" holds exactly
   * when w is not Saturday, and then 6 - w more cells end the last week.
   */
  lemma TrailingBlock(y: int, m: int)
    requires 0 <= m < 12
    ensures var c := LeadingCells(y, m) + DaysInMonth(y, m);
      var w := Weekday(Ymd(y, m, DaysInMonth(y, m)));
      && ((6 - w > 0 && c % 7 != 0) <==> w != 6)
      && (w != 6 ==> c + (6 - w) == 7 * ((c + 6) / 7))
      && (w == 6 ==> c == 7 * ((c + 6) / 7))
  {
    var days := DaysInMonth(y, m);
    var lead := LeadingCells(y, m);
    var c := lead + days;
    var x := DayNumber(Ymd(y, m, 1)) + 4;
    assert DayNumber(Ymd(y, m, days)) + 4 == x + days - 1;
    ModOffset(x, days - 1);
    var w := (c - 1) % 7;
    assert Weekday(Ymd(y, m, days)) == w;
    var q := (c - 1) / 7;
    assert c == 7 * q + w + 1;
    if w == 6 {
      DivModUnique(c, 7, q + 1, 0);
      DivModUnique(c + 6, 7, q + 1, 6);
    } else {
      DivModUnique(c, 7, q, w + 1);
      DivModUnique(c + 6, 7, q + 1, w);
    }
  }

  // The cells the builder makes, one kind per loop, are the cells of Grid:
  // each step turns a slice of Grid into the next longer slice.

  lemma PushSlice(g: seq<CalendarDay>, k: int)
    requires 0 <= k < |g|
    ensures g[..k] + [g[k]] == g[..k + 1]
  {
  }

  lemma UnshiftSlice(g: seq<CalendarDay>, i: int, j: int)
    requires 0 <= i < j <= |g|
    ensures [g[i]] + g[i + 1..j] == g[i..j]
  {
  }

  /** The i-th `unshift` of the first loop puts the cell before the 1st's i-th predecessor in front. */
  lemma LeadingCellIsGridCell(y: int, m: int, subs: seq<Subscription>, i: int)
    requires 0 <= m < 12 && 0 <= i < LeadingCells(y, m)
    ensures var d, g, lead := MakeDate(y, m, 0 - i), Grid(y, m, subs), LeadingCells(y, m);
      [CalendarDay(d, d.day, false, SubscriptionsOn(subs, d))] + g[lead - i..lead] == g[lead - 1 - i..lead]
  {
    MakeDateBeforeMonth(y, m, i);
    var d, g, lead := MakeDate(y, m, 0 - i), Grid(y, m, subs), LeadingCells(y, m);
    assert CalendarDay(d, d.day, false, SubscriptionsOn(subs, d)) == g[lead - 1 - i];
    UnshiftSlice(g, lead - 1 - i, lead);
  }

  /** The `push` of the second loop for day i appends the grid's cell for day i. */
  lemma MonthCellIsGridCell(y: int, m: int, subs: seq<Subscription>, i: int)
    requires 0 <= m < 12 && 1 <= i <= DaysInMonth(y, m)
    ensures var d, g, lead := MakeDate(y, m, i), Grid(y, m, subs), LeadingCells(y, m);
      g[..lead + i - 1] + [CalendarDay(d, i, true, SubscriptionsOn(subs, d))] == g[..lead + i]
  {
    var d, g, lead := MakeDate(y, m, i), Grid(y, m, subs), LeadingCells(y, m);
    assert CalendarDay(d, i, true, SubscriptionsOn(subs, d)) == g[lead + i - 1];
    PushSlice(g, lead + i - 1);
  }

  /** The `push` of the third loop for day i of the month after appends the grid's next cell. */
  lemma TrailingCellIsGridCell(y: int, m: int, subs: seq<Subscription>, i: int)
    requires 0 <= m < 12 && 1 <= i && LeadingCells(y, m) + DaysInMonth(y, m) + i - 1 < GridLength(y, m)
    ensures var d, g, c := MakeDate(y, m + 1, i), Grid(y, m, subs), LeadingCells(y, m) + DaysInMonth(y, m);
      g[..c + i - 1] + [CalendarDay(d, d.day, false, SubscriptionsOn(subs, d))] == g[..c + i]
  {
    MakeDateNextMonth(y, m, i);
    var d, g, c := MakeDate(y, m + 1, i), Grid(y, m, subs), LeadingCells(y, m) + DaysInMonth(y, m);
    assert CalendarDay(d, d.day, false, SubscriptionsOn(subs, d)) == g[c + i - 1];
    PushSlice(g, c + i - 1);
  }

  /** The `push` of the `while` loop, built from the day after the last cell, appends the grid's next cell. */
  lemma FollowingCellIsGridCell(y: int, m: int, subs: seq<Subscription>, k: int)
    requires 0 <= m < 12 && LeadingCells(y, m) + DaysInMonth(y, m) <= k < GridLength(y, m)
    ensures var g := Grid(y, m, subs);
      var last := g[k - 1].dateObj;
      var d := MakeDate(last.year, last.month, last.day + 1);
      g[..k] + [CalendarDay(d, d.day, false, SubscriptionsOn(subs, d))] == g[..k + 1]
  {
    var g := Grid(y, m, subs);
    var last := CellDate(y, m, k - 1);
    assert g[k - 1].dateObj == last;
    MakeDateNextDay(last);
    GridDatesConsecutive(y, m, k - 1);
    var d := Succ(last);
    assert g[k] == CalendarDay(d, d.day, false, SubscriptionsOn(subs, d));
    PushSlice(g, k);
  }

  /** The 1st of July 2024 is a Monday, so its grid has one leading cell and five weeks. */
  lemma July2024Shape()
    ensures LeadingCells(2024, 6) == 1 && DaysInMonth(2024, 6) == 31 && GridLength(2024, 6) == 35
  {
    assert DayNumber(Ymd(2024, 6, 1)) == 19905;
  }

  /** The cells of July 2024, whatever the store holds. */
  lemma July2024Layout(subs: seq<Subscription>)
    ensures var g := Grid(2024, 6, subs);
      && |g| == 35
      && g[0].dateObj == Ymd(2024, 5, 30) && g[0].dateNumber == 30 && !g[0].isCurrentMonth
      && (forall d :: 1 <= d <= 31 ==> g[d].dateObj == Ymd(2024, 6, d) && g[d].dateNumber == d && g[d].isCurrentMonth)
      && g[32].dateObj == Ymd(2024, 7, 1) && g[33].dateObj == Ymd(2024, 7, 2) && g[34].dateObj == Ymd(2024, 7, 3)
      && !g[32].isCurrentMonth && !g[33].isCurrentMonth && !g[34].isCurrentMonth
  {
    July2024Shape();
  }

  /** Two records on July 18, 2024 (the multiple-subscriptions display test). */
  lemma July2024SameDayRecords()
    ensures var spotify := Subscription("1", "Spotify", 10, Monthly, Ymd(2024, 6, 18));
      var hbo := Subscription("2", "HBO Max", 15, Monthly, Ymd(2024, 6, 18));
      var g := Grid(2024, 6, [spotify, hbo]);
      && |g| == 35
      && g[18].isCurrentMonth && g[18].dateNumber == 18
      && g[18].subscriptions == [spotify, hbo]
  {
    July2024Layout([Subscription("1", "Spotify", 10, Monthly, Ymd(2024, 6, 18)),
                    Subscription("2", "HBO Max", 15, Monthly, Ymd(2024, 6, 18))]);
  }

  /** An empty store leaves July 10, 2024 without records (the empty-day display test). */
  lemma July2024EmptyDay()
    ensures var g := Grid(2024, 6, []);
      && |g| == 35
      && g[10].isCurrentMonth && g[10].dateNumber == 10
      && g[10].subscriptions == []
  {
    July2024Layout([]);
  }

  /** A record on June 30, 2024 (the padding-day display test) sits in the other-month cell 0. */
  lemma July2024PaddingCell()
    ensures var padding := Subscription("3", "PaddingSub", 5, Monthly, Ymd(2024, 5, 30));
      Grid(2024, 6, [padding])[0] == CalendarDay(Ymd(2024, 5, 30), 30, false, [padding])
  {
    July2024Layout([Subscription("3", "PaddingSub", 5, Monthly, Ymd(2024, 5, 30))]);
  }

  /** A record paid on a padding day of July 2024 is in no cell of July itself. */
  lemma July2024PaddingRecordOutsideJuly(subs: seq<Subscription>, x: Subscription)
    requires x.paymentDate == Ymd(2024, 5, 30)
    ensures var g := Grid(2024, 6, subs);
      forall k :: 0 <= k < |g| && g[k].isCurrentMonth ==> x !in g[k].subscriptions
  {
    var g := Grid(2024, 6, subs);
    forall k | 0 <= k < |g| && g[k].isCurrentMonth ensures x !in g[k].subscriptions {
      GridCellFacts(2024, 6, subs, k);
    }
  }
}
