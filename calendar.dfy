/**
 * The calendar view's state and handlers (calendar.component.ts): the viewed
 * month, the grid built for it, the selected day with its subscriptions, and
 * the state of the add/edit form. The store is an object the component is
 * given; the form's save, cancel and delete events arrive as method calls.
 */
module Calendar {
  import opened Wrappers
  import opened Dates
  import opened Subscriptions
  import opened CalendarGrid

  class CalendarComponent {
    const service: SubscriptionService
    var currentMonth: Date
    var daysInMonthGrid: seq<CalendarDay>
    var selectedDate: Option<Date>
    var subscriptionsForSelectedDate: seq<Subscription>
    var showSubscriptionForm: bool
    var editingSubscription: Option<Subscription>

    ghost predicate Valid()
      reads this, service
    {
      service.Valid()
    }

    /** `today` stands for the `new Date()` the field initialiser reads from the clock. */
    constructor (service: SubscriptionService, today: Date)
      ensures this.service == service
      ensures currentMonth == today && daysInMonthGrid == []
      ensures selectedDate == None && subscriptionsForSelectedDate == []
      ensures !showSubscriptionForm && editingSubscription == None
    {
      this.service := service;
      currentMonth := today;
      daysInMonthGrid := [];
      selectedDate := None;
      subscriptionsForSelectedDate := [];
      showSubscriptionForm := false;
      editingSubscription := None;
    }

    method NgOnInit()
      modifies this`daysInMonthGrid
      ensures daysInMonthGrid == Grid(currentMonth.year, currentMonth.month, service.subscriptions)
    {
      GenerateCalendarGrid();
    }

    /** Rebuilds the grid of the viewed month from the store. */
    method GenerateCalendarGrid()
      modifies this`daysInMonthGrid
      ensures daysInMonthGrid == Grid(currentMonth.year, currentMonth.month, service.subscriptions)
    {
      daysInMonthGrid := [];
      var year := currentMonth.year;
      var month := currentMonth.month;

      var firstDayOfMonth := MakeDate(year, month, 1);
      var lastDayOfMonth := MakeDate(year, month + 1, 0);
      MakeDateLastOfMonth(year, month);

      var firstDayOfWeek := Weekday(firstDayOfMonth);
      var totalDaysInMonth := lastDayOfMonth.day;
      AddPreviousMonthDays(year, month, firstDayOfWeek);
      AddCurrentMonthDays(year, month, totalDaysInMonth);

      var lastDayOfWeek := Weekday(lastDayOfMonth);
      var remainingCells := 6 - lastDayOfWeek;
      AddNextMonthDays(year, month, remainingCells);
      PadToFiveWeeks(year, month);
    }

    // The four blocks of the grid builder, in the order it runs them; each
    // extends the cells built so far to a longer prefix of Grid.

    /** The days of the month before, each put in front of the ones so far. */
    method AddPreviousMonthDays(year: int, month: int, firstDayOfWeek: int)
      requires 0 <= month < 12 && firstDayOfWeek == LeadingCells(year, month)
      requires daysInMonthGrid == []
      modifies this`daysInMonthGrid
      ensures daysInMonthGrid == Grid(year, month, service.subscriptions)[..firstDayOfWeek]
    {
      ghost var grid := Grid(year, month, service.subscriptions);
      var i := 0;
      while i < firstDayOfWeek
        invariant 0 <= i <= firstDayOfWeek
        invariant daysInMonthGrid == grid[firstDayOfWeek - i..firstDayOfWeek]
      {
        var prevMonthDay := MakeDate(year, month, 0 - i);
        LeadingCellIsGridCell(year, month, service.subscriptions, i);
        var cell := CalendarDay(prevMonthDay, prevMonthDay.day, false, service.GetSubscriptionsByDate(prevMonthDay));
        daysInMonthGrid := [cell] + daysInMonthGrid;
        i := i + 1;
      }
    }

    /** The days of the viewed month, 1 to the last. */
    method AddCurrentMonthDays(year: int, month: int, totalDaysInMonth: int)
      requires 0 <= month < 12 && totalDaysInMonth == DaysInMonth(year, month)
      requires daysInMonthGrid == Grid(year, month, service.subscriptions)[..LeadingCells(year, month)]
      modifies this`daysInMonthGrid
      ensures daysInMonthGrid == Grid(year, month, service.subscriptions)[..LeadingCells(year, month) + totalDaysInMonth]
    {
      ghost var grid := Grid(year, month, service.subscriptions);
      ghost var lead := LeadingCells(year, month);
      var i := 1;
      while i <= totalDaysInMonth
        invariant 1 <= i <= totalDaysInMonth + 1
        invariant daysInMonthGrid == grid[..lead + i - 1]
      {
        var dayDate := MakeDate(year, month, i);
        MonthCellIsGridCell(year, month, service.subscriptions, i);
        var cell := CalendarDay(dayDate, i, true, service.GetSubscriptionsByDate(dayDate));
        daysInMonthGrid := daysInMonthGrid + [cell];
        i := i + 1;
      }
    }

    /**
     * The days of the month after that finish the last week; remainingCells
     * is 6 minus the weekday of the last day of the month.
     */
    method AddNextMonthDays(year: int, month: int, remainingCells: int)
      requires 0 <= month < 12 && remainingCells == 6 - Weekday(Ymd(year, month, DaysInMonth(year, month)))
      requires daysInMonthGrid == Grid(year, month, service.subscriptions)[..LeadingCells(year, month) + DaysInMonth(year, month)]
      modifies this`daysInMonthGrid
      ensures var c := LeadingCells(year, month) + DaysInMonth(year, month);
        daysInMonthGrid == Grid(year, month, service.subscriptions)[..7 * ((c + 6) / 7)]
    {
      ghost var grid := Grid(year, month, service.subscriptions);
      ghost var c := LeadingCells(year, month) + DaysInMonth(year, month);
      TrailingBlock(year, month);
      if remainingCells > 0 && |daysInMonthGrid| % 7 != 0 {
        var i := 1;
        while i <= remainingCells
          invariant 1 <= i <= remainingCells + 1
          invariant daysInMonthGrid == grid[..c + i - 1]
        {
          var nextMonthDay := MakeDate(year, month + 1, i);
          TrailingCellIsGridCell(year, month, service.subscriptions, i);
          var cell := CalendarDay(nextMonthDay, nextMonthDay.day, false, service.GetSubscriptionsByDate(nextMonthDay));
          daysInMonthGrid := daysInMonthGrid + [cell];
          i := i + 1;
        }
      }
    }

    /** Whole days after the last cell until there are five weeks. */
    method PadToFiveWeeks(year: int, month: int)
      requires 0 <= month < 12
      requires var c := LeadingCells(year, month) + DaysInMonth(year, month);
        daysInMonthGrid == Grid(year, month, service.subscriptions)[..7 * ((c + 6) / 7)]
      modifies this`daysInMonthGrid
      ensures daysInMonthGrid == Grid(year, month, service.subscriptions)
    {
      ghost var grid := Grid(year, month, service.subscriptions);
      ghost var c := LeadingCells(year, month) + DaysInMonth(year, month);
      while |daysInMonthGrid| < 35
        invariant 7 * ((c + 6) / 7) <= |daysInMonthGrid| <= |grid|
        invariant daysInMonthGrid == grid[..|daysInMonthGrid|]
        decreases 35 - |daysInMonthGrid|
      {
        var k := |daysInMonthGrid|;
        var lastDate := daysInMonthGrid[k - 1].dateObj;
        assert lastDate == grid[k - 1].dateObj;
        var nextDay := MakeDate(lastDate.year, lastDate.month, lastDate.day + 1);
        FollowingCellIsGridCell(year, month, service.subscriptions, k);
        var cell := CalendarDay(nextDay, nextDay.day, false, service.GetSubscriptionsByDate(nextDay));
        daysInMonthGrid := daysInMonthGrid + [cell];
      }
      assert |daysInMonthGrid| == |grid|;
    }

    /** Shows the 1st of the month before, rebuilt, with selection and form cleared. */
    method PreviousMonth()
      modifies this
      ensures var (py, pm) := MonthBefore(old(currentMonth).year, old(currentMonth).month);
        currentMonth == Ymd(py, pm, 1)
      ensures daysInMonthGrid == Grid(currentMonth.year, currentMonth.month, service.subscriptions)
      ensures selectedDate == None && !showSubscriptionForm && editingSubscription == None
      ensures subscriptionsForSelectedDate == old(subscriptionsForSelectedDate)
    {
      MakeDateNeighbourMonths(currentMonth.year, currentMonth.month);
      currentMonth := MakeDate(currentMonth.year, currentMonth.month - 1, 1);
      GenerateCalendarGrid();
      selectedDate := None;
      showSubscriptionForm := false;
      editingSubscription := None;
    }

    /** Shows the 1st of the month after, rebuilt, with selection and form cleared. */
    method NextMonth()
      modifies this
      ensures var (ny, nm) := MonthAfter(old(currentMonth).year, old(currentMonth).month);
        currentMonth == Ymd(ny, nm, 1)
      ensures daysInMonthGrid == Grid(currentMonth.year, currentMonth.month, service.subscriptions)
      ensures selectedDate == None && !showSubscriptionForm && editingSubscription == None
      ensures subscriptionsForSelectedDate == old(subscriptionsForSelectedDate)
    {
      MakeDateNeighbourMonths(currentMonth.year, currentMonth.month);
      currentMonth := MakeDate(currentMonth.year, currentMonth.month + 1, 1);
      GenerateCalendarGrid();
      selectedDate := None;
      showSubscriptionForm := false;
      editingSubscription := None;
    }

    /**
     * Selects the clicked cell's day and loads its subscriptions. The viewed
     * month moves to the cell's month only for a cell outside the viewed month
     * whose month index equals the viewed one, so a padding cell of the grid on
     * screen never changes the viewed month.
     */
    method OnDateClick(day: CalendarDay)
      modifies this
      ensures var reanchor := !day.isCurrentMonth && old(currentMonth).month == day.dateObj.month;
        && (reanchor ==> currentMonth == Ymd(day.dateObj.year, day.dateObj.month, 1)
                         && daysInMonthGrid == Grid(currentMonth.year, currentMonth.month, service.subscriptions))
        && (!reanchor ==> currentMonth == old(currentMonth) && daysInMonthGrid == old(daysInMonthGrid))
      ensures forall subs: seq<Subscription> ::
                day in old(daysInMonthGrid)
                && old(daysInMonthGrid) == Grid(old(currentMonth).year, old(currentMonth).month, subs)
                ==> currentMonth == old(currentMonth)
      ensures selectedDate == Some(day.dateObj)
      ensures subscriptionsForSelectedDate == SubscriptionsOn(service.subscriptions, day.dateObj)
      ensures !showSubscriptionForm && editingSubscription == None
    {
      PaddingCellsOtherMonthIndex(currentMonth.year, currentMonth.month);
      if !day.isCurrentMonth && currentMonth.month == day.dateObj.month {
        currentMonth := MakeDate(day.dateObj.year, day.dateObj.month, 1);
        GenerateCalendarGrid();
      }
      selectedDate := Some(day.dateObj);
      LoadSubscriptionsForDate(day.dateObj);
      showSubscriptionForm := false;
      editingSubscription := None;
    }

    method LoadSubscriptionsForDate(date: Date)
      modifies this`subscriptionsForSelectedDate
      ensures subscriptionsForSelectedDate == SubscriptionsOn(service.subscriptions, date)
    {
      subscriptionsForSelectedDate := service.GetSubscriptionsByDate(date);
    }

    /** Opens an empty form; with no day selected, `today` (the clock) becomes the selected day. */
    method ShowAddForm(today: Date)
      modifies this`selectedDate, this`subscriptionsForSelectedDate, this`editingSubscription, this`showSubscriptionForm
      ensures old(selectedDate).None? ==>
        selectedDate == Some(today) && subscriptionsForSelectedDate == SubscriptionsOn(service.subscriptions, today)
      ensures old(selectedDate).Some? ==>
        selectedDate == old(selectedDate) && subscriptionsForSelectedDate == old(subscriptionsForSelectedDate)
      ensures editingSubscription == None && showSubscriptionForm
    {
      if selectedDate.None? {
        selectedDate := Some(today);
        LoadSubscriptionsForDate(today);
      }
      editingSubscription := None;
      showSubscriptionForm := true;
    }

    method ShowEditForm(subscription: Subscription)
      modifies this`editingSubscription, this`showSubscriptionForm
      ensures editingSubscription == Some(subscription) && showSubscriptionForm
    {
      editingSubscription := Some(subscription);
      showSubscriptionForm := true;
    }

    /**
     * The form's save event. Editing keeps the edited record's id and payment
     * day and takes the form's name, price and cycle; otherwise a new record
     * goes to the selected day. With neither, nothing happens at all.
     */
    method HandleSaveSubscription(data: Subscription)
      requires Valid()
      modifies this, service
      ensures Valid()
      ensures currentMonth == old(currentMonth) && daysInMonthGrid == old(daysInMonthGrid)
      ensures selectedDate == old(selectedDate)
      ensures old(selectedDate).None? && old(editingSubscription).None? ==>
        && service.subscriptions == old(service.subscriptions) && service.nextId == old(service.nextId)
        && subscriptionsForSelectedDate == old(subscriptionsForSelectedDate)
        && showSubscriptionForm == old(showSubscriptionForm) && editingSubscription == old(editingSubscription)
      ensures old(editingSubscription).Some? ==>
        var e := old(editingSubscription).value;
        var i := FirstIndexOf(old(service.subscriptions), e.id);
        && service.nextId == old(service.nextId)
        && |service.subscriptions| == |old(service.subscriptions)|
        && (i == -1 ==> service.subscriptions == old(service.subscriptions))
        && (i >= 0 ==> service.subscriptions
                       == old(service.subscriptions)[i := Subscription(e.id, data.name, data.price, data.cycle, e.paymentDate)])
      ensures old(editingSubscription).None? && old(selectedDate).Some? ==>
        && service.nextId == old(service.nextId) + 1
        && service.subscriptions == old(service.subscriptions)
             + [Subscription(ToDecimal(old(service.nextId)), data.name, data.price, data.cycle, old(selectedDate).value)]
      ensures old(selectedDate).Some? ==>
        subscriptionsForSelectedDate == SubscriptionsOn(service.subscriptions, old(selectedDate).value)
      ensures old(selectedDate).None? ==> subscriptionsForSelectedDate == old(subscriptionsForSelectedDate)
      ensures old(selectedDate).Some? || old(editingSubscription).Some? ==>
        !showSubscriptionForm && editingSubscription == None
    {
      if selectedDate.None? && editingSubscription.None? {
        return;
      }

      if editingSubscription.Some? {
        var updatedSub := editingSubscription.value.(name := data.name, price := data.price, cycle := data.cycle);
        var _ := service.UpdateSubscription(updatedSub);
      } else if selectedDate.Some? {
        var _ := service.AddSubscription(SubscriptionData(data.name, data.price, data.cycle), selectedDate.value);
      }

      if selectedDate.Some? {
        LoadSubscriptionsForDate(selectedDate.value);
      }
      showSubscriptionForm := false;
      editingSubscription := None;
    }

    method HandleCancelSubscriptionForm()
      modifies this`showSubscriptionForm, this`editingSubscription
      ensures !showSubscriptionForm && editingSubscription == None
    {
      showSubscriptionForm := false;
      editingSubscription := None;
    }

    /** The form's delete event: deletes only while a day is selected; always closes the form. */
    method HandleDeleteSubscription(subscriptionId: string)
      requires Valid()
      modifies this, service
      ensures Valid()
      ensures currentMonth == old(currentMonth) && daysInMonthGrid == old(daysInMonthGrid)
      ensures selectedDate == old(selectedDate) && service.nextId == old(service.nextId)
      ensures old(selectedDate).Some? ==>
        && service.subscriptions == WithoutId(old(service.subscriptions), subscriptionId)
        && subscriptionsForSelectedDate == SubscriptionsOn(service.subscriptions, old(selectedDate).value)
      ensures old(selectedDate).None? ==>
        service.subscriptions == old(service.subscriptions)
        && subscriptionsForSelectedDate == old(subscriptionsForSelectedDate)
      ensures !showSubscriptionForm && editingSubscription == None
    {
      if selectedDate.Some? {
        var _ := service.DeleteSubscription(subscriptionId);
        LoadSubscriptionsForDate(selectedDate.value);
      }
      showSubscriptionForm := false;
      editingSubscription := None;
    }
  }

  /** Next month then previous month comes back to the 1st of the month first shown. */
  method NavigationScenario(service: SubscriptionService, today: Date)
  {
    var calendar := new CalendarComponent(service, today);
    calendar.NgOnInit();
    calendar.NextMonth();
    calendar.PreviousMonth();
    assert calendar.currentMonth == Ymd(today.year, today.month, 1);
    GridWeekdayColumns(today.year, today.month, 0);
    assert Weekday(calendar.daysInMonthGrid[0].dateObj) == 0;
  }
}
