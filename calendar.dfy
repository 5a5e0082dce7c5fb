/** The calendar view's logic without its markup: month length, the blank
    cells before the 1st, the subscriptions billed on each day, the logo
    markers of a day cell, the active day, and moving between months. */
module CalendarComponent {
  import opened Dates
  import opened Subscriptions
  import opened Wrappers

  /** getDaysInMonth: `new Date(y, m + 1, 0)` is the day before the 1st of the
      following month, so its day of month is the distance between the two
      1sts. That distance is the Gregorian month length. */
  function DaysInMonth(ym: YearMonth): (n: int)
    requires ValidMonth(ym)
    ensures n == MonthLength(ym.year, ym.month)
  {
    FirstsOfConsecutiveMonths(ym);
    DayNumber(FirstOf(AddMonths(ym, 1))) - DayNumber(FirstOf(ym))
  }

  /** February has 29 days exactly in leap years; 2024 is one, 2023 is not. */
  lemma FebruaryLength(y: int)
    ensures DaysInMonth(YearMonth(y, 1)) == 29 <==> IsLeapYear(y)
    ensures DaysInMonth(YearMonth(y, 1)) == 28 <==> !IsLeapYear(y)
    ensures DaysInMonth(YearMonth(2024, 1)) == 29 && DaysInMonth(YearMonth(2023, 1)) == 28
  {
  }

  /** The number of empty cells before the 1st: the weekday of the 1st, with
      Sunday = 0 as in the SUN-first header row. */
  function LeadingBlanks(ym: YearMonth): (n: int)
    ensures 0 <= n < 7
  {
    Weekday(FirstOf(ym))
  }

  lemma ModShift7(q: int, x: int)
    ensures (7 * q + x) % 7 == x % 7
  {
    var a, b := x / 7, x % 7;
    assert 7 * q + x == 7 * (q + a) + b;
  }

  /** Day d of the displayed month sits in the grid column of its own weekday:
      with LeadingBlanks blanks in front, cell number LeadingBlanks + d - 1
      lies in column Weekday(d) of a seven-column grid. */
  lemma DayColumn(ym: YearMonth, d: int)
    ensures (LeadingBlanks(ym) + d - 1) % 7 == Weekday(Date(ym.year, ym.month, d))
  {
    var n := DayNumber(FirstOf(ym)) + 4;
    DayNumberInMonth(ym, d);
    assert Weekday(Date(ym.year, ym.month, d)) == (n + d - 1) % 7;
    ModShift7(n / 7, n % 7 + d - 1);
    assert n == 7 * (n / 7) + n % 7;
  }

  /** The grid of the following month continues where this one stops: its
      blanks are this month's blanks plus its length, modulo a week. */
  lemma NextMonthBlanks(ym: YearMonth)
    requires ValidMonth(ym)
    ensures LeadingBlanks(AddMonths(ym, 1)) == (LeadingBlanks(ym) + DaysInMonth(ym)) % 7
  {
    var next := AddMonths(ym, 1);
    var n := DaysInMonth(ym);
    DayColumn(ym, n + 1);
    DayNumberInMonth(ym, n + 1);
    assert DayNumber(Date(ym.year, ym.month, n + 1)) == DayNumber(FirstOf(next));
  }

  /** The exact-day test of the per-day filter. */
  predicate IsDueOn(s: Subscription, date: Date) {
    s.nextBillingDate.day == date.day &&
    s.nextBillingDate.month == date.month &&
    s.nextBillingDate.year == date.year
  }

  /** subscriptionsForDay: the subscriptions billed on `date`, in list order. */
  function SubscriptionsForDay(subs: seq<Subscription>, date: Date): seq<Subscription> {
    if subs == [] then []
    else if IsDueOn(subs[0], date) then [subs[0]] + SubscriptionsForDay(subs[1..], date)
    else SubscriptionsForDay(subs[1..], date)
  }

  /** A day's group holds exactly the list's subscriptions billed on that day,
      each as often as in the list. */
  lemma {:induction false} SubscriptionsForDayContents(subs: seq<Subscription>, date: Date)
    ensures forall s :: s in SubscriptionsForDay(subs, date) <==> s in subs && IsDueOn(s, date)
    ensures forall s :: multiset(SubscriptionsForDay(subs, date))[s] ==
                        (if IsDueOn(s, date) then multiset(subs)[s] else 0)
  {
    if subs != [] {
      SubscriptionsForDayContents(subs[1..], date);
      assert subs == [subs[0]] + subs[1..];
      DayGroupOfHead(subs, date);
    }
  }

  /** The per-day filter splits over concatenation, keeping the order. */
  lemma {:induction false} SubscriptionsForDayAppend(a: seq<Subscription>, b: seq<Subscription>, date: Date)
    ensures SubscriptionsForDay(a + b, date) == SubscriptionsForDay(a, date) + SubscriptionsForDay(b, date)
  {
    if a == [] {
      assert a + b == b;
    } else {
      assert (a + b)[1..] == a[1..] + b;
      SubscriptionsForDayAppend(a[1..], b, date);
    }
  }

  /** The logos drawn in a day cell and the "+k" label after them. */
  datatype Markers = Markers(shown: seq<Subscription>, more: Option<nat>)

  /** At most three logos, the first ones of the day; a "+k" label exactly when
      more than three subscriptions fall on the day, counting the rest. */
  function MarkersFor(group: seq<Subscription>): (m: Markers)
    ensures |m.shown| <= 3 && m.shown <= group
    ensures |m.shown| == if |group| > 3 then 3 else |group|
    ensures m.more.Some? <==> |group| > 3
    ensures m.more.Some? ==> |m.shown| + m.more.value == |group| && m.more.value == |group| - 3
    ensures m.more.None? ==> m.shown == group
  {
    if |group| > 3 then Markers(group[..3], Some(|group| - 3)) else Markers(group, None)
  }

  /** isActive: the cell of day i is highlighted when it is the selected date. */
  predicate IsActive(i: int, currentMonth: Date, selectedDate: Date) {
    i == selectedDate.day &&
    currentMonth.month == selectedDate.month &&
    currentMonth.year == selectedDate.year
  }

  /** One cell of the calendar grid. A day cell carries its day number, the
      date a click on it reports, the subscriptions billed that day, its logo
      markers and whether it is highlighted. */
  datatype Cell =
    | Blank(index: nat)
    | Day(day: int, date: Date, subscriptions: seq<Subscription>, markers: Markers, active: bool)

  /** The cell for day i of the displayed month. */
  function DayCell(subs: seq<Subscription>, currentMonth: Date, selectedDate: Date, i: int): Cell {
    var date := Date(currentMonth.year, currentMonth.month, i);
    var group := SubscriptionsForDay(subs, date);
    Day(i, date, group, MarkersFor(group), IsActive(i, currentMonth, selectedDate))
  }

  /** The multiset union of the day groups of days 1..k of a month. */
  function DayGroupsUnion(subs: seq<Subscription>, ym: YearMonth, k: int): multiset<Subscription>
    decreases k
  {
    if k <= 0 then multiset{}
    else DayGroupsUnion(subs, ym, k - 1) + multiset(SubscriptionsForDay(subs, Date(ym.year, ym.month, k)))
  }

  lemma {:induction false} DayGroupsUnionEmpty(ym: YearMonth, k: int)
    ensures DayGroupsUnion([], ym, k) == multiset{}
    decreases k
  {
    if k > 0 {
      DayGroupsUnionEmpty(ym, k - 1);
    }
  }

  /** One day's group of a non-empty list: the head, if billed that day,
      followed by the group of the tail. */
  lemma DayGroupOfHead(subs: seq<Subscription>, date: Date)
    requires subs != []
    ensures multiset(SubscriptionsForDay(subs, date)) ==
      (if IsDueOn(subs[0], date) then multiset{subs[0]} else multiset{}) +
      multiset(SubscriptionsForDay(subs[1..], date))
  {
    if IsDueOn(subs[0], date) {
      assert SubscriptionsForDay(subs, date) == [subs[0]] + SubscriptionsForDay(subs[1..], date);
    }
  }

  lemma Regroup(a: multiset<Subscription>, b: multiset<Subscription>, c: multiset<Subscription>, d: multiset<Subscription>)
    ensures (a + c) + (d + b) == (a + b) + (c + d)
  {
  }

  /** The head of a non-empty list is added to the union once if it falls on
      one of days 1..k of the month, and not at all otherwise. */
  lemma {:induction false} DayGroupsUnionHead(subs: seq<Subscription>, ym: YearMonth, k: int)
    requires subs != []
    ensures DayGroupsUnion(subs, ym, k) ==
      DayGroupsUnion(subs[1..], ym, k) +
      (if IsDueIn(subs[0], ym) && 1 <= subs[0].nextBillingDate.day <= k then multiset{subs[0]} else multiset{})
    decreases k
  {
    if k > 0 {
      var x, date := subs[0], Date(ym.year, ym.month, k);
      DayGroupsUnionHead(subs, ym, k - 1);
      DayGroupOfHead(subs, date);
      var before := if IsDueIn(x, ym) && 1 <= x.nextBillingDate.day <= k - 1 then multiset{x} else multiset{};
      var extra := if IsDueOn(x, date) then multiset{x} else multiset{};
      var after := if IsDueIn(x, ym) && 1 <= x.nextBillingDate.day <= k then multiset{x} else multiset{};
      assert after == before + extra;
      var a, b := DayGroupsUnion(subs[1..], ym, k - 1), multiset(SubscriptionsForDay(subs[1..], date));
      assert DayGroupsUnion(subs, ym, k) == DayGroupsUnion(subs, ym, k - 1) + multiset(SubscriptionsForDay(subs, date));
      assert DayGroupsUnion(subs[1..], ym, k) == a + b;
      Regroup(a, b, before, extra);
    }
  }

  /** The day groups of days 1..N partition the subscriptions due in the
      displayed month: as multisets, their union is exactly that month's
      subscriptions. */
  lemma {:induction false} DayGroupsPartition(subs: seq<Subscription>, ym: YearMonth)
    requires ValidMonth(ym) && ValidBillingDates(subs)
    ensures DayGroupsUnion(subs, ym, DaysInMonth(ym)) == multiset(DueIn(subs, ym))
  {
    if subs == [] {
      DayGroupsUnionEmpty(ym, DaysInMonth(ym));
    } else {
      var x, rest := subs[0], subs[1..];
      assert subs == [x] + rest;
      assert ValidBillingDates(rest) by {
        forall s | s in rest ensures ValidDate(s.nextBillingDate) { assert s in subs; }
      }
      DayGroupsPartition(rest, ym);
      DayGroupsUnionHead(subs, ym, DaysInMonth(ym));
    }
  }

  /** Each subscription due in the displayed month appears on exactly one day:
      the day of its next billing date, which lies in 1..N. */
  lemma ExactlyOneDay(subs: seq<Subscription>, ym: YearMonth, s: Subscription)
    requires ValidMonth(ym) && ValidBillingDates(subs)
    requires s in DueIn(subs, ym)
    ensures 1 <= s.nextBillingDate.day <= DaysInMonth(ym)
    ensures forall d :: s in SubscriptionsForDay(subs, Date(ym.year, ym.month, d)) <==> d == s.nextBillingDate.day
  {
    assert s in subs && ValidDate(s.nextBillingDate);
    forall d
      ensures s in SubscriptionsForDay(subs, Date(ym.year, ym.month, d)) <==> d == s.nextBillingDate.day
    {
      SubscriptionsForDayContents(subs, Date(ym.year, ym.month, d));
    }
  }

  /** The calendar component. Its one piece of state is the month it shows;
      it starts at the selected date it was first given and afterwards moves
      only through ChangeMonth, whatever later becomes of the selected date. */
  class Calendar {
    var currentMonth: Date

    ghost predicate Valid()
      reads this
    {
      ValidDate(currentMonth)
    }

    constructor (selectedDate: Date)
      requires ValidDate(selectedDate)
      ensures Valid() && currentMonth == selectedDate
    {
      currentMonth := selectedDate;
    }

    /** changeMonth: show the 1st of the month `increment` months away and
        report that date through onDateChange (returned here). */
    method ChangeMonth(increment: int) returns (notified: Date)
      requires Valid()
      modifies this
      ensures Valid()
      ensures currentMonth == FirstOf(AddMonths(MonthOf(old(currentMonth)), increment))
      ensures notified == currentMonth
    {
      currentMonth := FirstOf(AddMonths(MonthOf(currentMonth), increment));
      notified := currentMonth;
    }

    /** renderCalendarDays without the markup: the blank cells, then one cell
        per day of the displayed month, each in its weekday's column. At most
        one cell is active: the selected day, when the displayed month is the
        selected one. */
    method RenderDays(subscriptions: seq<Subscription>, selectedDate: Date) returns (days: seq<Cell>)
      requires Valid()
      ensures |days| == LeadingBlanks(MonthOf(currentMonth)) + DaysInMonth(MonthOf(currentMonth))
      ensures forall k :: 0 <= k < LeadingBlanks(MonthOf(currentMonth)) ==> days[k] == Blank(k)
      ensures forall i :: 1 <= i <= DaysInMonth(MonthOf(currentMonth)) ==>
        days[LeadingBlanks(MonthOf(currentMonth)) + i - 1] == DayCell(subscriptions, currentMonth, selectedDate, i)
      ensures forall k :: LeadingBlanks(MonthOf(currentMonth)) <= k < |days| ==>
        days[k].Day? && k % 7 == Weekday(days[k].date)
      ensures forall k :: 0 <= k < |days| && days[k].Day? ==>
        (days[k].active <==>
          MonthOf(selectedDate) == MonthOf(currentMonth) &&
          k == LeadingBlanks(MonthOf(currentMonth)) + selectedDate.day - 1)
      ensures ValidDate(selectedDate) && MonthOf(selectedDate) == MonthOf(currentMonth) ==>
        days[LeadingBlanks(MonthOf(currentMonth)) + selectedDate.day - 1].active
    {
      var ym := MonthOf(currentMonth);
      var totalDays := DaysInMonth(ym);
      var firstDayOfMonth := LeadingBlanks(ym);
      days := [];
      for i := 0 to firstDayOfMonth
        invariant |days| == i
        invariant forall k :: 0 <= k < i ==> days[k] == Blank(k)
      {
        days := days + [Blank(i)];
      }
      for i := 1 to totalDays + 1
        invariant |days| == firstDayOfMonth + i - 1
        invariant forall k :: 0 <= k < firstDayOfMonth ==> days[k] == Blank(k)
        invariant forall j :: 1 <= j < i ==> days[firstDayOfMonth + j - 1] == DayCell(subscriptions, currentMonth, selectedDate, j)
      {
        days := days + [DayCell(subscriptions, currentMonth, selectedDate, i)];
      }
      forall k | firstDayOfMonth <= k < |days|
        ensures days[k].Day? && k % 7 == Weekday(days[k].date)
      {
        assert days[k] == DayCell(subscriptions, currentMonth, selectedDate, k - firstDayOfMonth + 1);
        DayColumn(ym, k - firstDayOfMonth + 1);
      }
      forall k | 0 <= k < |days| && days[k].Day?
        ensures days[k].active <==>
          MonthOf(selectedDate) == ym && k == firstDayOfMonth + selectedDate.day - 1
      {
        assert k >= firstDayOfMonth;
        assert days[k] == DayCell(subscriptions, currentMonth, selectedDate, k - firstDayOfMonth + 1);
      }
    }
  }

  /** Moving one month forward or back wraps the year at December and January
      and lands on the 1st. */
  lemma ChangeMonthWraps(currentMonth: Date)
    requires ValidDate(currentMonth)
    ensures FirstOf(AddMonths(MonthOf(currentMonth), 1)) ==
      if currentMonth.month == 11 then Date(currentMonth.year + 1, 0, 1)
      else Date(currentMonth.year, currentMonth.month + 1, 1)
    ensures FirstOf(AddMonths(MonthOf(currentMonth), -1)) ==
      if currentMonth.month == 0 then Date(currentMonth.year - 1, 11, 1)
      else Date(currentMonth.year, currentMonth.month - 1, 1)
  {
    AddMonthsNext(MonthOf(currentMonth));
    AddMonthsPrevious(MonthOf(currentMonth));
  }
}
