# SubTracker calendar core in Dafny

SubTracker is an Angular application for keeping track of recurring
subscriptions. Each subscription is paid on one calendar day, and the app
shows the payments on a month calendar. This project models the logic under
that view:

- **The in-memory store** (`SubscriptionService`). It keeps a list of
  subscriptions and a counter. `addSubscription` assigns the counter's decimal
  string as the new id and bumps the counter. `getSubscriptionsByDate` keeps,
  in store order, the records paid on a given day. `updateSubscription`
  replaces the first record with the same id. `deleteSubscription` drops every
  record with the id and reports whether any was dropped.
- **The calendar component** (`CalendarComponent`).
  - Its state is the viewed month, the month grid, the selected day and that
    day's subscriptions, and whether the add/edit form is open and for which
    record.
  - The grid builder puts the padding days of the month before, the days of
    the month, and padding days of the month after into Sunday-first weeks. It
    stops once the last week is full and there are at least five weeks.
  - The handlers move between months, select a day, and open, save, cancel or
    delete through the form.
- **The form component** (`SubscriptionFormComponent`). It pre-fills its
  fields from the edited record. On save it validates the fields, then builds
  the record it emits. On delete it emits the record's id.
- **The Date arithmetic the code relies on.** This covers the proleptic
  Gregorian calendar of ECMA-262 section 21.4.1 (DayFromYear, MakeDay,
  WeekDay). It also covers how `new Date(y, m, d)` normalises a month index or
  day out of range.

Files and modules:

| file | module | what it holds |
|---|---|---|
| `wrappers.dfy` | `Wrappers` | `Option`, for `T \| null` |
| `dates.dfy` | `Dates` | calendar days, day numbers, weekdays, `MakeDate` |
| `subscriptions.dfy` | `Subscriptions` | `Subscription`, the decimal ids, the store functions and the class `SubscriptionService` |
| `calendar_grid.dfy` | `CalendarGrid` | `CalendarDay`, the cell-by-cell grid `Grid`, and what it contains |
| `calendar.dfy` | `Calendar` | the class `CalendarComponent` and its handlers |
| `subscription_form.dfy` | `SubscriptionForm` | the form fields and the class `SubscriptionFormComponent` |

Where the state changes in place, the model is imperative: the store, the
calendar's fields, the form's `formData` and the grid built by
`unshift`/`push`. `GenerateCalendarGrid` runs the four blocks of the source in
order (three `for` loops and a `while` loop), each as its own loop method. It
is proved equal to `Grid`, a function that says what each cell holds.
Separate lemmas prove facts about `Grid`: the weekday of every column, the
padding, the days of the month and the per-day query.

Two places where the comments and the code disagree; the model follows the
code:

- `onDateClick` moves the viewed month only for a cell that is not in the
  viewed month but has the same month index as the viewed month
  (calendar.component.ts:114). The comment at lines 115-116 says clicking a
  padding day switches to that day's month, but the condition never does that
  for a cell of the grid on screen, even one not rebuilt since the store
  changed. `OnDateClick` proves this.
- `handleSaveSubscription` and `handleDeleteSubscription` change the store
  without rebuilding the grid. The cells keep their old subscription lists
  until the month changes. `HandleSaveSubscription` and
  `HandleDeleteSubscription` state that `daysInMonthGrid` is unchanged.

## Model

Source paths are under `subscription-manager/src/app/`.

| member | source | states |
|---|---|---|
| Dates.DaysInMonth | subscription-manager/src/app/calendar/calendar.component.ts:42-45 | the length of a month is 28 to 31; it is 28 exactly for February of a common year, 29 exactly for February of a leap year, and 30 exactly for April, June, September and November |
| Dates.MonthBefore | subscription-manager/src/app/calendar/calendar.component.ts:98 | the month before is a valid month index exactly one month earlier in the year*12+month count, so January goes back to December of the year before |
| Dates.MonthAfter | subscription-manager/src/app/calendar/calendar.component.ts:106 | the month after is a valid month index exactly one month later, so December goes on to January of the next year |
| Dates.SuccPredInverse | subscription-manager/src/app/calendar/calendar.component.ts:85 | the next day and the previous day undo each other, across month and year ends |
| Dates.Weekday | subscription-manager/src/app/calendar/calendar.component.ts:44 | `getDay` is in 0..6 |
| Dates.WeekdaySucc | subscription-manager/src/app/calendar/calendar.component.ts:44 | the weekday of the next day is one more than the weekday of the day, modulo 7 |
| Dates.AddDaysDayNumber | subscription-manager/src/app/calendar/calendar.component.ts:49 | moving a date by n days moves its day number since 1970-01-01 by exactly n |
| Dates.MakeDateDayNumber | subscription-manager/src/app/calendar/calendar.component.ts:41-42 | `new Date(y, m, d)` is day d-1 counted from the 1st of the month after normalising the month into the year (MakeDay) |
| Dates.MakeDate | subscription-manager/src/app/calendar/calendar.component.ts:60 | `new Date(y, m, d)` with an in-range month and day is that very day |
| Dates.ConstructDate | subscription-manager/src/app/calendar/calendar.component.ts:98 | the Date constructor first reads a year from 0 to 99 as 1900 + y; an in-range month and day then name that day of the full year |
| Dates.MakeDateBeforeMonth | subscription-manager/src/app/calendar/calendar.component.ts:49 | `new Date(y, m, 0 - i)` is the i-th day counted back from the last day of the month before |
| Dates.MakeDateNextMonth | subscription-manager/src/app/calendar/calendar.component.ts:74 | `new Date(y, m + 1, i)` is day i of the month after, December rolling over to January |
| Dates.MakeDateLastOfMonth | subscription-manager/src/app/calendar/calendar.component.ts:42 | `new Date(y, m + 1, 0)` is the last day of month m, so its `getDate` is the month length |
| Dates.MakeDateNextDay | subscription-manager/src/app/calendar/calendar.component.ts:85 | `new Date(y, m, d + 1)` is the calendar day after, across month and year ends |
| Dates.MakeDateNeighbourMonths | subscription-manager/src/app/calendar/calendar.component.ts:98 | `new Date(y, m - 1, 1)` and `new Date(y, m + 1, 1)` are the 1st of the month before and of the month after |
| Dates.NextThenPreviousMonth | subscription-manager/src/app/calendar/calendar.component.ts:97-111 | one month forward then one back returns to the 1st of the month |
| Dates.PreviousThenNextMonth | subscription-manager/src/app/calendar/calendar.component.ts:97-111 | one month back then one forward returns to the 1st of the month |
| Dates.TwoDigitYearRoundTrip | subscription-manager/src/app/calendar/calendar.component.ts:98 | with the Date constructor's reading of years 0-99, one month back from January of year 100 and then forward lands on January 2000, not January 100 (see Findings) |
| Subscriptions.ToDecimal | subscription-manager/src/app/subscription.service.ts:22 | `nextId.toString()` is a non-empty string of decimal digits without a leading zero |
| Subscriptions.ParseToDecimal | subscription-manager/src/app/subscription.service.ts:22 | reading the id string back as a number gives the counter it came from |
| Subscriptions.ToDecimalInjective | subscription-manager/src/app/subscription.service.ts:16 | different counter values give different id strings, and equal values give equal ones |
| Subscriptions.SubscriptionsOn | subscription-manager/src/app/subscription.service.ts:33-40 | the query is never longer than the store, and holds exactly the stored records whose payment day has the same year, month and day as the given date |
| Subscriptions.SubscriptionService.GetSubscriptionsByDate | subscription-manager/src/app/subscription.service.ts:33-40 | the store is only read; the result is never longer than the store and holds exactly the stored records paid on the same year, month and day as the date |
| Subscriptions.SubscriptionsOnConcat | subscription-manager/src/app/subscription.service.ts:34 | the query keeps store order: querying a concatenation concatenates the queries |
| Subscriptions.SubscriptionsOnAppend | subscription-manager/src/app/subscription.service.ts:29 | after a record is pushed, the query lists it last if it is due that day, and is unchanged otherwise |
| Subscriptions.FirstIndexOf | subscription-manager/src/app/subscription.service.ts:43 | `findIndex` gives -1 exactly when no record has the id, and otherwise the first index whose record has the id |
| Subscriptions.WithoutId | subscription-manager/src/app/subscription.service.ts:53-54 | the filter keeps exactly the records with another id; the list gets shorter exactly when some record had the id |
| Subscriptions.WithoutIdConcat | subscription-manager/src/app/subscription.service.ts:53 | the delete filter keeps store order: deleting from a concatenation concatenates the results |
| Subscriptions.WithoutAbsentId | subscription-manager/src/app/subscription.service.ts:51-55 | deleting an id no record has leaves the store as it was |
| Subscriptions.DeleteTwice | subscription-manager/src/app/subscription.service.ts:51-55 | deleting is idempotent: after a delete no record has the id, so a second delete of it changes nothing |
| Subscriptions.WithoutUniqueId | subscription-manager/src/app/subscription.service.ts:51-55 | on a store with distinct ids, deleting keeps the ids distinct and removes exactly one record when the id is present |
| Subscriptions.AppendFreshId | subscription-manager/src/app/subscription.service.ts:22-29 | appending a record whose id reads as the counter keeps the ids distinct and every id below the bumped counter, and the new id is greater than every stored one |
| Subscriptions.SubscriptionService.constructor | subscription-manager/src/app/subscription.service.ts:15-18 | the store starts empty with the counter at 1, and its invariant holds: distinct ids, every id below the counter |
| Subscriptions.SubscriptionService.AddSubscription | subscription-manager/src/app/subscription.service.ts:20-31 | the new record has the counter's string as id and the given fields and day; the counter goes up by one; the record is appended; its id is greater than every earlier id; the query for its day gains it at the end; the invariant is kept |
| Subscriptions.SubscriptionService.UpdateSubscription | subscription-manager/src/app/subscription.service.ts:42-49 | with no record of that id, nothing changes and null is returned; otherwise exactly the first record with the id is replaced and the new record is returned; the invariant is kept |
| Subscriptions.SubscriptionService.DeleteSubscription | subscription-manager/src/app/subscription.service.ts:51-55 | the store becomes the filtered list; the result is true exactly when some record had the id; the invariant is kept |
| CalendarGrid.Grid | subscription-manager/src/app/calendar/calendar.component.ts:36-95 | the grid has `GridLength` cells, and the cell right after the leading padding is the current-month 1st with day number 1 and that day's records |
| CalendarGrid.GridLength | subscription-manager/src/app/calendar/calendar.component.ts:69-93 | the grid is whole weeks, 35 to 42 cells; it holds the padding and the whole month; it is either 35 cells or has less than one week after the month |
| CalendarGrid.GridDatesConsecutive | subscription-manager/src/app/calendar/calendar.component.ts:47-93 | each cell's day is the calendar day after the previous cell's |
| CalendarGrid.CellDayNumber | subscription-manager/src/app/calendar/calendar.component.ts:47-93 | cell k shows the day k - (leading cells) counted from the 1st of the month |
| CalendarGrid.GridWeekdayColumns | subscription-manager/src/app/calendar/calendar.component.ts:44 | cell k falls on weekday k mod 7, so the rows are Sunday-first weeks |
| CalendarGrid.GridLeadingPadding | subscription-manager/src/app/calendar/calendar.component.ts:47-56 | there are as many leading cells as the weekday of the 1st; they are other-month days of the month before (December of the year before for January); the last of them is the day before the 1st, and the 1st follows them |
| CalendarGrid.GridCellFacts | subscription-manager/src/app/calendar/calendar.component.ts:58-67 | a cell is marked current-month exactly when its day is in the viewed month; such cells hold days 1 to the last in order; `dateNumber` is the day of the month; every cell carries the store's query for its own day |
| CalendarGrid.PaddingCellsOtherMonthIndex | subscription-manager/src/app/calendar/calendar.component.ts:113-119 | whatever store the grid lists, no cell outside the viewed month has the viewed month's index |
| CalendarGrid.TrailingBlock | subscription-manager/src/app/calendar/calendar.component.ts:69-72 | the trailing-block guard holds exactly when the last day is not a Saturday; the block then ends the last week exactly, and it is skipped only when the month already ends a week |
| CalendarGrid.LeadingCellIsGridCell | subscription-manager/src/app/calendar/calendar.component.ts:48-55 | putting the first loop's i-th cell in front of the slice built so far gives the slice of `Grid` one cell longer, ending before the 1st |
| CalendarGrid.MonthCellIsGridCell | subscription-manager/src/app/calendar/calendar.component.ts:59-66 | appending the second loop's cell for day i to the slice built so far gives the slice of `Grid` through day i |
| CalendarGrid.TrailingCellIsGridCell | subscription-manager/src/app/calendar/calendar.component.ts:73-80 | appending the third loop's cell for day i of the month after gives the slice of `Grid` one cell longer |
| CalendarGrid.FollowingCellIsGridCell | subscription-manager/src/app/calendar/calendar.component.ts:84-92 | appending the `while` loop's cell, built from the day after the last cell, gives the slice of `Grid` one cell longer |
| CalendarGrid.July2024Shape | subscription-manager/src/app/calendar/calendar.component.spec.ts:130-131 | July 1, 2024 is a Monday: the July grid has one leading cell, 31 days and 35 cells |
| CalendarGrid.July2024Layout | subscription-manager/src/app/calendar/calendar.component.spec.ts:129-153 | whatever the store holds, July 2024's 35 cells are: cell 0 is the other-month June 30 (day number 30); July 1-31 are current-month cells with their day numbers; the last cells are the other-month August 1-3 |
| CalendarGrid.July2024SameDayRecords | subscription-manager/src/app/calendar/calendar.component.spec.ts:94-111 | with Spotify and HBO Max both paid on July 18, 2024, the current-month cell numbered 18 lists Spotify then HBO Max |
| CalendarGrid.July2024EmptyDay | subscription-manager/src/app/calendar/calendar.component.spec.ts:113-127 | over an empty store, the current-month cell numbered 10 of July 2024 lists no records |
| CalendarGrid.July2024PaddingCell | subscription-manager/src/app/calendar/calendar.component.spec.ts:129-153 | with one record paid on June 30, 2024, cell 0 of the July grid is the other-month June 30 numbered 30 and carries that record |
| CalendarGrid.July2024PaddingRecordOutsideJuly | subscription-manager/src/app/calendar/calendar.component.spec.ts:129-153 | a record paid on June 30, 2024 appears in no current-month cell of the July 2024 grid, whatever else the store holds |
| Calendar.CalendarComponent.constructor | subscription-manager/src/app/calendar/calendar.component.ts:22-30 | the component starts on today with an empty grid, no selection, no subscriptions listed and the form closed |
| Calendar.CalendarComponent.NgOnInit | subscription-manager/src/app/calendar/calendar.component.ts:32-34 | the grid becomes the grid of the viewed month over the store |
| Calendar.CalendarComponent.GenerateCalendarGrid | subscription-manager/src/app/calendar/calendar.component.ts:36-95 | the grid becomes exactly `Grid` of the viewed month over the current store |
| Calendar.CalendarComponent.AddPreviousMonthDays | subscription-manager/src/app/calendar/calendar.component.ts:47-56 | the first loop's `unshift`s build the leading cells of `Grid` |
| Calendar.CalendarComponent.AddCurrentMonthDays | subscription-manager/src/app/calendar/calendar.component.ts:58-67 | the second loop's `push`es extend the grid through the last day of the month |
| Calendar.CalendarComponent.AddNextMonthDays | subscription-manager/src/app/calendar/calendar.component.ts:69-82 | the guarded third loop extends the grid to the end of the last week |
| Calendar.CalendarComponent.PadToFiveWeeks | subscription-manager/src/app/calendar/calendar.component.ts:83-93 | the `while` loop pads with following days until the grid is the whole of `Grid` |
| Calendar.CalendarComponent.PreviousMonth | subscription-manager/src/app/calendar/calendar.component.ts:97-103 | the viewed month becomes the 1st of the month before, rolling back the year in January; the grid is rebuilt for it; selection, form and edited record are cleared; the listed subscriptions stay |
| Calendar.CalendarComponent.NextMonth | subscription-manager/src/app/calendar/calendar.component.ts:105-111 | the viewed month becomes the 1st of the month after, rolling over the year in December; the grid is rebuilt for it; selection, form and edited record are cleared; the listed subscriptions stay |
| Calendar.CalendarComponent.OnDateClick | subscription-manager/src/app/calendar/calendar.component.ts:113-125 | the month moves to the cell's month (with a rebuilt grid) exactly when the cell is outside the viewed month but has its month index, else month and grid stay; clicking any cell of a grid built for the viewed month, over any store contents, leaves the month unchanged, so this holds also for a grid left stale by a save or delete; the clicked day is selected, its subscriptions are listed and the form is closed |
| Calendar.CalendarComponent.LoadSubscriptionsForDate | subscription-manager/src/app/calendar/calendar.component.ts:127-129 | the listed subscriptions become the store's query for the day |
| Calendar.CalendarComponent.ShowAddForm | subscription-manager/src/app/calendar/calendar.component.ts:135-144 | with no selected day, today becomes the selected day and its subscriptions are listed; otherwise selection and list stay; the form opens with no edited record |
| Calendar.CalendarComponent.ShowEditForm | subscription-manager/src/app/calendar/calendar.component.ts:146-149 | the form opens on the given record |
| Calendar.CalendarComponent.HandleSaveSubscription | subscription-manager/src/app/calendar/calendar.component.ts:151-181 | With neither a selected day nor an edited record, nothing changes. When editing, the first record with the edited id gets the form's name, price and cycle, but keeps its id and payment day; the store length and counter stay. Otherwise exactly one record, dated the selected day, is appended with the next id. Afterwards the selected day's list is reloaded, or left as it was when no day is selected, and the form is closed. The store invariant is kept, and the grid is not rebuilt |
| Calendar.CalendarComponent.HandleCancelSubscriptionForm | subscription-manager/src/app/calendar/calendar.component.ts:183-186 | the form closes and the edited record is cleared |
| Calendar.CalendarComponent.HandleDeleteSubscription | subscription-manager/src/app/calendar/calendar.component.ts:188-195 | with a selected day, the id is deleted from the store and the day's list reloaded; without one the store and list stay; the form always closes; the grid is not rebuilt |
| SubscriptionForm.InitialFormData | subscription-manager/src/app/subscription-form/subscription-form.component.ts:32-43 | the fields copy the edited record's name, price and cycle; without one they are empty, no price, monthly |
| SubscriptionForm.SubscriptionFormComponent.constructor | subscription-manager/src/app/subscription-form/subscription-form.component.ts:14-28 | the inputs are bound and the fields start blank |
| SubscriptionForm.SubscriptionFormComponent.NgOnInit | subscription-manager/src/app/subscription-form/subscription-form.component.ts:32-43 | the fields become the pre-fill for the input record |
| SubscriptionForm.SubscriptionFormComponent.OnSave | subscription-manager/src/app/subscription-form/subscription-form.component.ts:45-70 | A record is emitted exactly when the name is non-empty, the price is present and positive, and there is an edited record or a selected day. It has the form's name, price and cycle. An edited record keeps its id and payment day. A new one has id `''` and the selected day. At most one record per call |
| SubscriptionForm.SubscriptionFormComponent.OnDelete | subscription-manager/src/app/subscription-form/subscription-form.component.ts:76-80 | an id is emitted exactly when there is an edited record with a non-empty id, and it is that record's id |
| SubscriptionForm.UntouchedEditSavesSame | subscription-manager/src/app/subscription-form/subscription-form.component.ts:32-70 | opening the form on a valid record and saving it untouched emits that same record |
| SubscriptionForm.EditMergeIsEmittedRecord | subscription-manager/src/app/calendar/calendar.component.ts:158-165 | the calendar's edit merge of an emitted record into the edited one gives back exactly the emitted record |
| SubscriptionForm.BlankFormSavesNothing | subscription-manager/src/app/subscription-form/subscription-form.component.ts:46-50 | a blank form never emits a record |

## Left out

- Prices are integers. JavaScript numbers with fractions, `NaN` and infinities are not modelled. For `onSave`'s check `!price \|\| price <= 0`, only the null, zero and negative cases remain.
- The id counter is an unbounded natural number. The loss of precision of a JavaScript number above 2^53 is not modelled.
- Dates are calendar days only. Time of day, time zones and the ECMA-262 limit of about 275,000 years on a Date are not modelled.
- Date objects are shared by reference in the source. The model treats them as values. The code never mutates a Date in place, so nothing depends on this.
- Calendar.CalendarComponent.PreviousMonth: builds dates with `MakeDate`, which reads years 0-99 literally. The Date constructor reads them as 1900-1999. That rule is modelled only in `ConstructDate` and exhibited in the Findings.
- Calendar.CalendarComponent.NextMonth: the same two-digit-year simplification as `PreviousMonth`.
- Calendar.CalendarComponent.GenerateCalendarGrid: the same two-digit-year simplification as `PreviousMonth`.
- Calendar.CalendarComponent.OnDateClick: the same two-digit-year simplification as `PreviousMonth`.
- The clock is not modelled. `new Date()` in the field initialiser (calendar.component.ts:22) and in `showAddForm` (line 139) becomes the parameter `today`.
- The HTML templates and styles are not modelled. This includes the template's hiding of subscription lists in other-month cells, which is what the padding-day display test checks. The model shows that such a cell still carries its day's records.
- Angular dependency injection, `@Input` binding, `EventEmitter` and the lifecycle are not modelled. An emitted value is the handler's `Option` result, and inputs are constructor parameters.
- `getSubscriptionsForCell` (calendar.component.ts:131-133) is a template helper equal to the store query. That query is modelled as `GetSubscriptionsByDate` and `SubscriptionsOn`.
- `onCancel` (subscription-form.component.ts:72-74) only emits an empty event. It has no state or data to model.
- The `console.error` and `console.warn` calls are not modelled.
- Application bootstrap (`main.ts`) and the root component (`app.component.ts`) have no logic and are not part of this model.

## Findings

| source | as written | input that shows it | evidently intended | confidence | as-written member | corrected member |
|---|---|---|---|---|---|---|
| subscription-manager/src/app/calendar/calendar.component.ts:98 | `new Date(year, month - 1, 1)` and the later `new Date(year, ...)` calls pass the year to the Date constructor, which reads 0-99 as 1900-1999 | `previousMonth` from January of year 100 gives December of year 99. The grid is then built for December 1999, and `nextMonth` gives January 2000 | one month back and one forward returns to January 100 | low: far outside normal use; not executed | Dates.TwoDigitYearRoundTrip | Dates.PreviousThenNextMonth |
