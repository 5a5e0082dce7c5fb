/** Spend aggregation: the total due in one calendar month, and the
    twelve-month projection built from it. A subscription counts only in the
    month of its stored next billing date; neither function rolls a monthly or
    yearly subscription forward into later months. */
module Calculations {
  import opened Dates
  import opened Subscriptions

  /** One entry of the twelve-month projection. `month` stands for the
      'MMM yyyy' label of the month it covers. */
  datatype MonthlySpend = MonthlySpend(month: YearMonth, amount: real)

  /** The `reduce` callback walked over the list from the left: the running
      total grows by the price of each subscription due in the month. */
  function SpendFrom(total: real, subs: seq<Subscription>, ym: YearMonth): (r: real)
    ensures r == total + SumPrices(DueIn(subs, ym))
    decreases |subs|
  {
    if subs == [] then total
    else SpendFrom(if IsDueIn(subs[0], ym) then total + subs[0].price else total, subs[1..], ym)
  }

  /** calculateTotalSpend: the prices of exactly the subscriptions whose next
      billing date is in the month and year of `selectedDate`, added up. */
  function TotalSpend(subs: seq<Subscription>, selectedDate: Date): (r: real)
    ensures r == SumPrices(DueIn(subs, MonthOf(selectedDate)))
    ensures subs == [] ==> r == 0.0
  {
    SpendFrom(0.0, subs, MonthOf(selectedDate))
  }

  /** With non-negative prices the month's total is non-negative and at most
      the sum of all prices. */
  lemma TotalSpendBounded(subs: seq<Subscription>, selectedDate: Date)
    requires PricesNonNegative(subs)
    ensures 0.0 <= TotalSpend(subs, selectedDate) <= SumPrices(subs)
  {
    DueInSumBounded(subs, MonthOf(selectedDate));
  }

  /** The day of the reference date plays no part. */
  lemma TotalSpendSameMonth(subs: seq<Subscription>, d1: Date, d2: Date)
    requires d1.year == d2.year && d1.month == d2.month
    ensures TotalSpend(subs, d1) == TotalSpend(subs, d2)
  {
  }

  /** Totals add up over a concatenation of lists. */
  lemma TotalSpendAppend(a: seq<Subscription>, b: seq<Subscription>, selectedDate: Date)
    ensures TotalSpend(a + b, selectedDate) == TotalSpend(a, selectedDate) + TotalSpend(b, selectedDate)
  {
    DueInAppend(a, b, MonthOf(selectedDate));
    SumPricesAppend(DueIn(a, MonthOf(selectedDate)), DueIn(b, MonthOf(selectedDate)));
  }

  /** A single subscription adds its price in the month of its stored next
      billing date and nothing in any other month, whatever its billing cycle. */
  lemma TotalSpendSingle(s: Subscription, selectedDate: Date)
    ensures TotalSpend([s], selectedDate) == if IsDueIn(s, MonthOf(selectedDate)) then s.price else 0.0
  {
    assert [s][1..] == [];
  }

  /** calculateMonthlySpending: starting at the 1st of the selected month, twelve
      consecutive months, each with the month total of calculateTotalSpend. */
  method MonthlySpending(subs: seq<Subscription>, selectedDate: Date) returns (monthlySpending: seq<MonthlySpend>)
    requires 0 <= selectedDate.month < 12
    ensures |monthlySpending| == 12
    ensures forall i :: 0 <= i < 12 ==>
      monthlySpending[i].month == AddMonths(MonthOf(selectedDate), i) &&
      monthlySpending[i].amount == TotalSpend(subs, FirstOf(monthlySpending[i].month))
  {
    var start := MonthOf(selectedDate);
    monthlySpending := [];
    var currentDate := FirstOf(start);
    MonthIndexInjective(AddMonths(start, 0), start);
    for i := 0 to 12
      invariant |monthlySpending| == i
      invariant currentDate == FirstOf(AddMonths(start, i))
      invariant forall k :: 0 <= k < i ==> monthlySpending[k] == Bucket(subs, start, k)
    {
      var month := MonthOf(currentDate);
      var monthTotal := SpendFrom(0.0, subs, month);
      assert MonthlySpend(month, monthTotal) == Bucket(subs, start, i);
      monthlySpending := monthlySpending + [MonthlySpend(month, monthTotal)];
      AddMonthsCompose(start, i, 1);
      currentDate := AddMonthsToDate(currentDate, 1);
    }
    forall i | 0 <= i < 12
      ensures monthlySpending[i].month == AddMonths(start, i)
      ensures monthlySpending[i].amount == TotalSpend(subs, FirstOf(monthlySpending[i].month))
    {
      assert monthlySpending[i] == Bucket(subs, start, i);
    }
  }

  /** The k-th entry of the projection from month `start`. */
  function Bucket(subs: seq<Subscription>, start: YearMonth, k: int): MonthlySpend {
    var month := AddMonths(start, k);
    MonthlySpend(month, TotalSpend(subs, FirstOf(month)))
  }

  /** What MonthlySpending promises about its result, for the lemmas below. */
  predicate IsProjection(subs: seq<Subscription>, start: YearMonth, r: seq<MonthlySpend>) {
    |r| == 12 &&
    forall i :: 0 <= i < |r| ==>
      r[i].month == AddMonths(start, i) && r[i].amount == TotalSpend(subs, FirstOf(r[i].month))
  }

  predicate Distinct(ms: seq<YearMonth>) {
    forall i, j :: 0 <= i < j < |ms| ==> ms[i] != ms[j]
  }

  function Labels(r: seq<MonthlySpend>): (ms: seq<YearMonth>)
    ensures |ms| == |r|
    ensures forall i :: 0 <= i < |r| ==> ms[i] == r[i].month
  {
    seq(|r|, i requires 0 <= i < |r| => r[i].month)
  }

  function SumAmounts(r: seq<MonthlySpend>): real {
    if r == [] then 0.0 else r[0].amount + SumAmounts(r[1..])
  }

  /** The subscriptions due in any of the months ms, in list order. */
  function DueWithin(subs: seq<Subscription>, ms: seq<YearMonth>): seq<Subscription> {
    if subs == [] then []
    else if MonthOf(subs[0].nextBillingDate) in ms then [subs[0]] + DueWithin(subs[1..], ms)
    else DueWithin(subs[1..], ms)
  }

  /** The month totals of the months ms, added up. */
  function MonthTotals(subs: seq<Subscription>, ms: seq<YearMonth>): real {
    if ms == [] then 0.0 else SumPrices(DueIn(subs, ms[0])) + MonthTotals(subs, ms[1..])
  }

  /** What one subscription adds to MonthTotals over the months ms. */
  function Share(s: Subscription, ms: seq<YearMonth>): real {
    if ms == [] then 0.0 else (if IsDueIn(s, ms[0]) then s.price else 0.0) + Share(s, ms[1..])
  }

  /** Over pairwise distinct months a subscription is counted once if its month
      is among them, and not at all otherwise. */
  lemma {:induction false} ShareOfDistinct(s: Subscription, ms: seq<YearMonth>)
    requires Distinct(ms)
    ensures Share(s, ms) == if MonthOf(s.nextBillingDate) in ms then s.price else 0.0
  {
    if ms != [] {
      assert Distinct(ms[1..]) by {
        forall i, j | 0 <= i < j < |ms[1..]| ensures ms[1..][i] != ms[1..][j] {
          assert ms[1..][i] == ms[i + 1] && ms[1..][j] == ms[j + 1];
        }
      }
      ShareOfDistinct(s, ms[1..]);
      var m := MonthOf(s.nextBillingDate);
      if IsDueIn(s, ms[0]) {
        assert m == ms[0];
        assert m !in ms[1..] by {
          forall j | 0 <= j < |ms[1..]| ensures ms[1..][j] != m { assert ms[1..][j] == ms[j + 1]; }
        }
      } else {
        assert m != ms[0];
        assert (m in ms) == (m in ms[1..]) by {
          assert ms == [ms[0]] + ms[1..];
        }
      }
    }
  }

  /** MonthTotals of a list splits into its head's share and the rest's totals. */
  lemma {:induction false} MonthTotalsSplit(s: Subscription, rest: seq<Subscription>, ms: seq<YearMonth>)
    ensures MonthTotals([s] + rest, ms) == Share(s, ms) + MonthTotals(rest, ms)
  {
    if ms != [] {
      assert ([s] + rest)[0] == s && ([s] + rest)[1..] == rest;
      MonthTotalsSplit(s, rest, ms[1..]);
    }
  }

  /** Over pairwise distinct months, the month totals add up to the prices of
      the subscriptions due in one of those months: no subscription is counted
      twice. */
  lemma {:induction false} MonthTotalsOfDistinct(subs: seq<Subscription>, ms: seq<YearMonth>)
    requires Distinct(ms)
    ensures MonthTotals(subs, ms) == SumPrices(DueWithin(subs, ms))
  {
    if subs == [] {
      MonthTotalsOfEmpty(ms);
    } else {
      assert subs == [subs[0]] + subs[1..];
      MonthTotalsSplit(subs[0], subs[1..], ms);
      ShareOfDistinct(subs[0], ms);
      MonthTotalsOfDistinct(subs[1..], ms);
    }
  }

  lemma {:induction false} MonthTotalsOfEmpty(ms: seq<YearMonth>)
    ensures MonthTotals([], ms) == 0.0
  {
    if ms != [] {
      MonthTotalsOfEmpty(ms[1..]);
    }
  }

  /** The amounts of a projection are the month totals of its labels. */
  lemma {:induction false} AmountsAreMonthTotals(subs: seq<Subscription>, r: seq<MonthlySpend>)
    requires forall i :: 0 <= i < |r| ==> r[i].amount == TotalSpend(subs, FirstOf(r[i].month))
    ensures SumAmounts(r) == MonthTotals(subs, Labels(r))
  {
    if r != [] {
      assert Labels(r)[1..] == Labels(r[1..]);
      AmountsAreMonthTotals(subs, r[1..]);
    }
  }

  lemma {:induction false} DueWithinBounded(subs: seq<Subscription>, ms: seq<YearMonth>)
    requires PricesNonNegative(subs)
    ensures SumPrices(DueWithin(subs, ms)) <= SumPrices(subs)
  {
    if subs != [] {
      assert subs[0] in subs;
      assert PricesNonNegative(subs[1..]) by {
        forall s | s in subs[1..] ensures s.price >= 0.0 { assert s in subs; }
      }
      DueWithinBounded(subs[1..], ms);
    }
  }

  /** The twelve months of a projection are consecutive and pairwise distinct. */
  lemma ProjectionMonthsConsecutive(subs: seq<Subscription>, start: YearMonth, r: seq<MonthlySpend>)
    requires IsProjection(subs, start, r)
    ensures forall i :: 0 <= i < 11 ==> r[i + 1].month == AddMonths(r[i].month, 1)
    ensures Distinct(Labels(r))
  {
    forall i | 0 <= i < 11 ensures r[i + 1].month == AddMonths(r[i].month, 1) {
      AddMonthsCompose(start, i, 1);
    }
    forall i, j | 0 <= i < j < 12 ensures Labels(r)[i] != Labels(r)[j] {
      assert MonthIndex(r[i].month) != MonthIndex(r[j].month);
    }
  }

  /** The projection's amounts add up to the prices of the subscriptions due in
      the window, so each subscription lands in at most one bucket; with
      non-negative prices the twelve amounts never exceed the sum of all prices. */
  lemma ProjectionTotal(subs: seq<Subscription>, start: YearMonth, r: seq<MonthlySpend>)
    requires IsProjection(subs, start, r)
    ensures SumAmounts(r) == SumPrices(DueWithin(subs, Labels(r)))
    ensures PricesNonNegative(subs) ==> SumAmounts(r) <= SumPrices(subs)
  {
    ProjectionMonthsConsecutive(subs, start, r);
    AmountsAreMonthTotals(subs, r);
    MonthTotalsOfDistinct(subs, Labels(r));
    if PricesNonNegative(subs) {
      DueWithinBounded(subs, Labels(r));
    }
  }

  /** A single subscription, monthly or yearly, shows up only in the bucket of
      its stored next billing date: it is never repeated in later months. */
  lemma ProjectionOfSingle(s: Subscription, start: YearMonth, r: seq<MonthlySpend>)
    requires IsProjection([s], start, r)
    ensures forall i :: 0 <= i < 12 ==>
      r[i].amount == if r[i].month == MonthOf(s.nextBillingDate) then s.price else 0.0
  {
    forall i | 0 <= i < 12
      ensures r[i].amount == if r[i].month == MonthOf(s.nextBillingDate) then s.price else 0.0
    {
      TotalSpendSingle(s, FirstOf(r[i].month));
    }
  }
}
