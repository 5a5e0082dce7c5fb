# Subscription tracker — a Dafny model of its view-model core

The application keeps an in-memory list of subscriptions. Each one has an id, a
name, a price, a billing cycle and a next billing date. The application shows
three views of that list:

- a month calendar that places each subscription on its billing day;
- a spending panel for the selected month: a pie chart, a legend and a total;
- a twelve-month spending projection that starts at the selected month.

This project models the logic behind those views and the top-level state
handlers, and proves what they promise:

- `dates.dfy` (`Dates`): the calendar arithmetic the code relies on from
  JavaScript `Date` and date-fns. It covers month overflow in
  `new Date(y, m + k, 1)`, the last-day trick `new Date(y, m + 1, 0)`, the
  weekday `getDay()` and date-fns `addMonths`. Months are 0-based, as
  `getMonth()` returns them. Day numbers are counted from 1 January 1970, which
  is day 0, a Thursday.
- `subscriptions.dfy` (`Wrappers`, `Subscriptions`): the subscription record,
  and the month-and-year filter that every view applies. It also defines price
  sums and ids.
- `calculations.dfy` (`Calculations`): `calculateTotalSpend`, a left fold proved
  equal to the sum over the filtered list. Also `calculateMonthlySpending`, a
  twelve-step loop proved against a specification, with the facts about the
  projection it returns.
- `calendar.dfy` (`CalendarComponent`): the `Calendar` component as a class.
  Its `currentMonth` state changes through `ChangeMonth`. `RenderDays` builds
  the grid: leading blanks, then one cell per day with that day's
  subscriptions, the logo markers with the "+n" overflow, and the active flag.
  Proved facts include the month lengths, that each day cell sits in its
  weekday column, and that the day groups partition the month's
  subscriptions.
- `analytics.dfy` (`SpendingAnalytics`): the panel's filter, its pie data, its
  total (proved equal to `calculateTotalSpend`) and its colour cycling.
- `app.dfy` (`AppComponent`): the `App` component as a class. It holds the
  list, the selected date, the form flags and the stored total. Every handler
  ensures `Valid()`: the stored total equals the month total, which is what
  the effect on `[subscriptions, selectedDate]` maintains. The three handlers
  that only change the form flags also require it, because they leave the
  stored total alone. The module also proves the list-update laws and the
  start-up state's totals and calendar.

Modelling choices worth knowing:

- The projection's month label is the formatted string `MMM yyyy`. It is
  modelled as the `YearMonth` it formats, which the label determines uniquely.
- The day grouping is modelled as the code computes it: one filter of the
  whole list per rendered day (`Calendar.tsx:43-47`), `SubscriptionsForDay`.
  Its grouping properties are stated over days 1..N of the month.
- The calendar's `currentMonth` is set from `selectedDate` only when the
  component first mounts. After that, only the month arrows change it. Picking
  a date through the date picker or a day cell changes `selectedDate` but not
  the displayed month. The class models exactly this: `RenderDays` takes
  `selectedDate` as a parameter, and a cell is active only when the two months
  agree.
- The App's stored `totalSpend` is computed but never displayed. The spending
  panel computes its own total, and `SpendingAnalytics.PanelTotal` is proved
  equal to it.

## Model

| member | source | states |
|---|---|---|
| Dates.AddMonths | src/components/Calendar.tsx:26 | `new Date(y, m + k, 1)` normalises the month: the result is a valid month whose absolute month index is the old index plus k |
| Dates.AddMonthsNext | src/components/Calendar.tsx:26 | one month forward from December is January of the next year; otherwise the month increases by one in the same year |
| Dates.AddMonthsPrevious | src/components/Calendar.tsx:26 | one month back from January is December of the previous year; otherwise the month decreases by one in the same year |
| Dates.AddMonthsInverse | src/components/Calendar.tsx:25-29 | moving k months and then -k months returns to the starting month |
| Dates.AddMonthsCompose | src/utils/calculations.ts:30 | moving a months and then b months is moving a + b months, so twelve single steps from the start reach start + i at step i |
| Dates.MonthIndexInjective | src/components/Calendar.tsx:26 | distinct valid months have distinct month indices |
| Dates.AddMonthsToDate | src/utils/calculations.ts:30 | date-fns addMonths: the month moves by k, the result is a real calendar date; the day is kept when the target month has it, and otherwise becomes that month's last day (so a day of 28 or less is always kept) |
| Dates.MonthLength | src/components/Calendar.tsx:20-23 | the Gregorian month length, between 28 and 31 |
| Dates.MarchYearLength | src/components/Calendar.tsx:21 | consecutive March-to-February years differ by 366 days exactly when the later calendar year is a leap year, else by 365 |
| Dates.MonthOffsetStep | src/components/Calendar.tsx:21 | the day offsets of consecutive months within a March-based year differ by that month's 30 or 31 days |
| Dates.FirstsOfConsecutiveMonths | src/components/Calendar.tsx:21-22 | the first of the next month lies exactly MonthLength days after the first of this month, so day 0 of the next month is this month's last day |
| Dates.DayNumberInMonth | src/components/Calendar.tsx:42 | day d of a month is d - 1 days after its first |
| Dates.Weekday | src/components/Calendar.tsx:34 | getDay() gives a weekday index in 0..6, with Sunday as 0 |
| Dates.DayNumberAnchors | src/components/Calendar.tsx:34 | 1 January 1970 is day 0, and 1 October 2024 falls on a Tuesday (index 2) |
| Subscriptions.IsDueIn | src/utils/calculations.ts:6 | the test every view applies: the next billing date has the month and year of the given month (the day is ignored) |
| Subscriptions.DueIn | src/utils/calculations.ts:6 | the month-and-year filter keeps exactly the subscriptions billed in the month and is never longer than the list |
| Subscriptions.DueInSubMultiset | src/utils/calculations.ts:5-10 | the filter takes each subscription at most as often as the list holds it |
| Subscriptions.DueInAppend | src/components/SpendingAnalytics.tsx:14-17 | filtering a concatenation filters each part and keeps their order |
| Subscriptions.SumPricesAppend | src/utils/calculations.ts:5-10 | the price sum of a concatenation is the sum of the parts' price sums |
| Subscriptions.DueInSumBounded | src/utils/calculations.ts:4-11 | with non-negative prices, a month's share is non-negative and at most the whole list's price sum |
| Calculations.SpendFrom | src/utils/calculations.ts:5-10 | the reduce from a running total adds exactly the prices of the subscriptions billed in the month |
| Calculations.TotalSpend | src/utils/calculations.ts:4-11 | calculateTotalSpend is the price sum of the subscriptions billed in the selected date's month and year; it is zero for an empty list |
| Calculations.TotalSpendBounded | src/utils/calculations.ts:4-11 | with non-negative prices the total lies between zero and the sum of all prices |
| Calculations.TotalSpendSameMonth | src/utils/calculations.ts:6 | the day of the selected date does not matter: two dates in the same month and year give the same total |
| Calculations.TotalSpendAppend | src/utils/calculations.ts:4-11 | the total of a concatenation is the sum of the parts' totals |
| Calculations.TotalSpendSingle | src/utils/calculations.ts:6-9 | a single subscription contributes its price when it is billed in the month, and nothing otherwise |
| Calculations.MonthlySpending | src/utils/calculations.ts:13-34 | exactly twelve entries; entry i is labelled with the selected month moved forward i months and carries that month's total as calculateTotalSpend computes it |
| Calculations.ShareOfDistinct | src/utils/calculations.ts:17-31 | over distinct months, a subscription is counted once, at its price, when its billing month is among them, and not at all otherwise |
| Calculations.MonthTotalsSplit | src/utils/calculations.ts:17-31 | summing month totals over a list splits into the head's share plus the rest's month totals |
| Calculations.MonthTotalsOfDistinct | src/utils/calculations.ts:17-31 | over distinct months, the sum of the monthly totals is the price sum of the subscriptions billed within those months |
| Calculations.MonthTotalsOfEmpty | src/utils/calculations.ts:18-23 | with no subscriptions every month total is zero |
| Calculations.AmountsAreMonthTotals | src/utils/calculations.ts:18-28 | entries whose amounts are their months' totals add up to the month totals over their labels |
| Calculations.DueWithinBounded | src/utils/calculations.ts:17-31 | with non-negative prices, the subscriptions billed within any set of months cost at most the whole list |
| Calculations.ProjectionMonthsConsecutive | src/utils/calculations.ts:17-31 | the twelve labels are consecutive months and pairwise distinct |
| Calculations.ProjectionTotal | src/utils/calculations.ts:13-34 | the projection's amounts add up to the prices of the subscriptions billed within its twelve months, so each subscription is counted at most once; with non-negative prices that is at most the list's total |
| Calculations.ProjectionOfSingle | src/utils/calculations.ts:17-31 | a single subscription appears only in the month of its next billing date: there at its price, elsewhere as zero; it is never rolled forward by its billing cycle |
| CalendarComponent.DaysInMonth | src/components/Calendar.tsx:20-23 | getDaysInMonth is the Gregorian length of the month |
| CalendarComponent.FebruaryLength | src/components/Calendar.tsx:20-23 | February has 29 days exactly in leap years and 28 otherwise; 29 in 2024, 28 in 2023 |
| CalendarComponent.LeadingBlanks | src/components/Calendar.tsx:34-39 | the number of blank cells before day 1 is the weekday of the first, in 0..6 |
| CalendarComponent.DayColumn | src/components/Calendar.tsx:34-42 | after the blanks, day d lands in the column of its own weekday |
| CalendarComponent.NextMonthBlanks | src/components/Calendar.tsx:25-34 | the next month's blanks are this month's blanks plus its length, modulo 7 |
| CalendarComponent.SubscriptionsForDay | src/components/Calendar.tsx:43-47 | the day's group: the subscriptions whose next billing date has that day, month and year, in list order |
| CalendarComponent.SubscriptionsForDayContents | src/components/Calendar.tsx:43-47 | a day's group holds exactly the subscriptions billed on that date, each as often as in the list |
| CalendarComponent.SubscriptionsForDayAppend | src/components/Calendar.tsx:43-47 | the day filter splits over concatenation, keeping list order |
| CalendarComponent.IsActive | src/components/Calendar.tsx:49-51 | day i is highlighted when it is the selected date's day and the displayed month and year are the selected date's |
| CalendarComponent.DayCell | src/components/Calendar.tsx:42-51 | the cell of day i: its date in the displayed month, that day's group, its markers and its highlight flag |
| CalendarComponent.MarkersFor | src/components/Calendar.tsx:64-76 | the first three logos of the group when it has more than three, otherwise all of them; a "+n" marker appears exactly when the group has more than three, with n the group's size minus three |
| CalendarComponent.DayGroupsUnionEmpty | src/components/Calendar.tsx:41-47 | an empty list gives empty groups on every day |
| CalendarComponent.DayGroupOfHead | src/components/Calendar.tsx:43-47 | a day's group is the head, if it is billed that day, together with the tail's group |
| CalendarComponent.DayGroupsUnionHead | src/components/Calendar.tsx:41-47 | the union of days 1..k is the head's group together with the tail's union |
| CalendarComponent.DayGroupsPartition | src/components/Calendar.tsx:41-47 | the union of the groups of days 1..N is exactly the multiset of the month's subscriptions |
| CalendarComponent.ExactlyOneDay | src/components/Calendar.tsx:41-47 | a subscription billed in the month appears on exactly one day, its billing day, which lies within the month |
| CalendarComponent.Calendar.constructor | src/components/Calendar.tsx:15 | the displayed month starts as the selected date |
| CalendarComponent.Calendar.ChangeMonth | src/components/Calendar.tsx:25-29 | the displayed date becomes the first of the month moved by the increment, and that same date is handed to onDateChange |
| CalendarComponent.Calendar.RenderDays | src/components/Calendar.tsx:31-102 | the grid is LeadingBlanks blank cells then one cell per day 1..N; each day cell holds that day's group and markers, sits in its weekday's column, and is active exactly when it is the selected day of the selected month |
| CalendarComponent.ChangeMonthWraps | src/components/Calendar.tsx:25-29 | the arrows wrap December forward to January of the next year and January back to December of the previous year |
| SpendingAnalytics.MonthlySubscriptions | src/components/SpendingAnalytics.tsx:14-17 | keeps exactly the subscriptions billed in the selected date's month and year, none more often than in the list |
| SpendingAnalytics.PieData | src/components/SpendingAnalytics.tsx:19-22 | one entry per subscription, in order, carrying its name and price |
| SpendingAnalytics.ReduceValues | src/components/SpendingAnalytics.tsx:24 | the reduce adds every entry's value to the starting sum |
| SpendingAnalytics.PieDataTotal | src/components/SpendingAnalytics.tsx:19-24 | the entries' values add up to the prices of the subscriptions they show |
| SpendingAnalytics.PanelTotal | src/components/SpendingAnalytics.tsx:14-24 | the panel's total equals calculateTotalSpend for the same list and date, and is zero when no subscription is billed in the month |
| SpendingAnalytics.ColorFor | src/components/SpendingAnalytics.tsx:50 | every slice gets one of the six palette colours |
| SpendingAnalytics.ColorsCycle | src/components/SpendingAnalytics.tsx:50 | colours repeat with period six |
| SpendingAnalytics.NearbyColorsDiffer | src/components/SpendingAnalytics.tsx:11 | entries fewer than six apart get different colours |
| AppComponent.AddSubscription | src/App.tsx:49-52 | the new list is the old list, unchanged, followed by the new subscription |
| AppComponent.DeleteSubscription | src/App.tsx:54-56 | keeps exactly the subscriptions whose id differs, and is the identity when the id is absent |
| AppComponent.DeleteSubscriptionAppend | src/App.tsx:55 | deletion splits over concatenation, so the survivors keep their order |
| AppComponent.DeleteSubscriptionIdempotent | src/App.tsx:54-56 | deleting the same id twice equals deleting it once |
| AppComponent.DeleteUndoesAdd | src/App.tsx:49-56 | adding under a fresh id and then deleting that id restores the list |
| AppComponent.EditSubscription | src/App.tsx:58-61 | same length and order; each entry with the updated id is replaced, every other entry is kept |
| AppComponent.EditSubscriptionFrame | src/App.tsx:58-61 | editing keeps the ids and their order, keeps ids unique, and changes nothing when the id is absent |
| AppComponent.UniqueIdsPreserved | src/App.tsx:49-56 | adding under a fresh id, and deleting, keep ids unique |
| AppComponent.DeleteKeepsUniqueIds | src/App.tsx:54-56 | deleting keeps ids unique |
| AppComponent.ConsUniqueIds | src/App.tsx:54-56 | a head whose id is absent from a unique-id tail extends it to a unique-id list |
| AppComponent.TotalSpendAfterAdd | src/App.tsx:40-52 | after an add, the month total grows by the new price when that subscription is billed in the selected month, and is unchanged otherwise |
| AppComponent.InitialTotals | src/App.tsx:10-31 | the two initial subscriptions total 7.44 for October 2024 and nothing for November 2024 |
| AppComponent.InitialCalendar | src/App.tsx:10-31 | in October 2024, day 30 holds both initial subscriptions in list order and every other day holds none |
| AppComponent.EmptyProjection | src/utils/calculations.ts:13-34 | with no subscriptions all twelve projected amounts are zero |
| AppComponent.Replaced | src/App.tsx:59 | one entry after an edit: the updated subscription when the ids agree, the entry itself otherwise |
| AppComponent.InitialSubscriptions | src/App.tsx:10-31 | the two starting subscriptions, Amazon Prime at 3.45 and GoDaddy Hosting at 3.99, both monthly and both billed next on 30 October 2024 |
| AppComponent.App.FormVisible | src/App.tsx:110 | the add/edit form is shown while an add is requested or an edit is under way |
| AppComponent.App.constructor | src/App.tsx:34-43 | the initial list, the given date as the selection, both form flags clear, and the stored total equal to the month total |
| AppComponent.App.HandleDateChange | src/App.tsx:40-47 | the selection becomes the date, nothing else but the recomputed total changes, and the total matches the new month |
| AppComponent.App.HandleAddSubscription | src/App.tsx:40-52 | the subscription is appended, the add form is hidden, and the total matches the new list |
| AppComponent.App.HandleDeleteSubscription | src/App.tsx:40-56 | the list loses that id, and the total matches the new list |
| AppComponent.App.HandleEditSubscription | src/App.tsx:40-61 | the entry is replaced by id, the edit ends while the add flag is kept, and the total matches the new list |
| AppComponent.App.OpenAddForm | src/App.tsx:98 | the add flag is set, the form shows, and nothing else changes |
| AppComponent.App.StartEditing | src/App.tsx:107 | the edited subscription is remembered, the form shows, and nothing else changes |
| AppComponent.App.CancelForm | src/App.tsx:120-123 | both flags are cleared and the form is hidden; list, date and total are untouched |
| AppComponent.App.SubmitForm | src/App.tsx:110-119 | while editing, the submit replaces by id; otherwise it appends and hides the form; the total matches the new list either way |

## Left out

- Rendering is not modelled: the JSX markup, CSS classes, animation and the
  hover tooltip state (`hoveredDate`). Only the data each cell and panel shows
  is modelled.
- The add/edit form component is not part of this model. It parses prices,
  generates ids from the clock and keeps its own field state. Submitted
  subscriptions enter the model as parameters.
- The subscription list, details, date-range picker and booking components are
  not part of this model. Their callbacks appear only as the handlers they
  call.
- The clock reading `new Date()` for the initial selected date is a parameter
  of `AppComponent.App.constructor`.
- Time of day, time zones and the internal millisecond value of a JavaScript
  `Date` are not modelled. A date is its year, month and day in local time.
- Month-name formatting is not modelled. This covers `format(.., 'MMM yyyy')`,
  `toLocaleString` and `toFixed(2)`. A projection label is the `YearMonth` it
  names.
- Prices are exact reals. IEEE-754 rounding in the sums is not modelled, so
  `InitialTotals` states 7.44 where floating-point addition may differ in the
  last place.
- The App's first render before its effect runs, when the stored total is
  still its initial 0, is not modelled. Each handler is followed at once by the
  recomputation that the effect performs.
- The date-fns library source is not part of this model. `addMonths` is
  modelled from its documented behaviour: it moves the month and clamps the day
  to the target month's length.
- `ValidDate` is required only where a proof needs it. The calendar's
  displayed month must be a real calendar day (`Calendar.constructor`,
  `ChangeMonth`, `RenderDays`), and the day-grouping lemmas require real billing
  dates. A JavaScript `Date` always denotes a real day. `MonthlySpending`
  requires only the month to be in 0..11, which `getMonth()` always gives. The
  other operations, such as `TotalSpend`, `RenderDays`' `selectedDate` and the
  App handlers, accept any year, month and day. On an out-of-range triple they
  compute from the raw fields, where JavaScript would first normalise the date.
- Years are taken literally. JavaScript's `new Date(y, m, d)` maps a year
  argument of 0..99 to 1900..1999, and every date the code builds goes through
  it (`Calendar.tsx:21`, `:26`, `:34`, `:42`; `calculations.ts:15`). For those
  years the model therefore differs: the month arrows, month lengths, weekdays
  and projection months are computed for years 0..99 themselves. The limited
  range of a JavaScript `Date` (about 275,000 years either side of 1970) is not
  modelled either.
