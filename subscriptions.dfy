/** An optional value, for the application's `Subscription | null` state. */
module Wrappers {
  datatype Option<T> = None | Some(value: T)
}

/** The `Subscription` record and the list-level helpers that every view of
    the subscription list shares: the month filter, price sums and ids. */
module Subscriptions {
  import opened Dates

  datatype BillingCycle = Monthly | Yearly

  /** One tracked subscription. Prices are exact reals in one implicit currency. */
  datatype Subscription = Subscription(
    id: string,
    name: string,
    company: string,
    logo: string,
    price: real,
    billingCycle: BillingCycle,
    nextBillingDate: Date,
    startDate: Date)

  /** The test every view applies: the next billing date lies in the given
      calendar month of the given year (day of month ignored). */
  predicate IsDueIn(s: Subscription, ym: YearMonth) {
    s.nextBillingDate.month == ym.month && s.nextBillingDate.year == ym.year
  }

  /** The subscriptions due in a month, in list order (`subscriptions.filter`
      with the month-and-year test). */
  function DueIn(subs: seq<Subscription>, ym: YearMonth): (r: seq<Subscription>)
    ensures |r| <= |subs|
    ensures forall s :: s in r <==> s in subs && IsDueIn(s, ym)
  {
    if subs == [] then []
    else if IsDueIn(subs[0], ym) then [subs[0]] + DueIn(subs[1..], ym)
    else DueIn(subs[1..], ym)
  }

  /** The filter takes each subscription at most as often as the list holds it. */
  lemma {:induction false} DueInSubMultiset(subs: seq<Subscription>, ym: YearMonth)
    ensures multiset(DueIn(subs, ym)) <= multiset(subs)
  {
    if subs != [] {
      assert subs == [subs[0]] + subs[1..];
      DueInSubMultiset(subs[1..], ym);
    }
  }

  /** Filtering a concatenation filters each part and keeps their order; with
      the one-element cases of the definition this pins DueIn down as the
      order-preserving filter. */
  lemma {:induction false} DueInAppend(a: seq<Subscription>, b: seq<Subscription>, ym: YearMonth)
    ensures DueIn(a + b, ym) == DueIn(a, ym) + DueIn(b, ym)
  {
    if a == [] {
      assert a + b == b;
    } else {
      assert (a + b)[1..] == a[1..] + b;
      DueInAppend(a[1..], b, ym);
    }
  }

  /** Sum of the prices of a list, in list order. */
  function SumPrices(subs: seq<Subscription>): real {
    if subs == [] then 0.0 else subs[0].price + SumPrices(subs[1..])
  }

  predicate PricesNonNegative(subs: seq<Subscription>) {
    forall s :: s in subs ==> s.price >= 0.0
  }

  lemma {:induction false} SumPricesAppend(a: seq<Subscription>, b: seq<Subscription>)
    ensures SumPrices(a + b) == SumPrices(a) + SumPrices(b)
  {
    if a == [] {
      assert a + b == b;
    } else {
      assert (a + b)[1..] == a[1..] + b;
      SumPricesAppend(a[1..], b);
    }
  }

  /** With non-negative prices, the month's share never exceeds the whole
      list's total and is itself non-negative. */
  lemma {:induction false} DueInSumBounded(subs: seq<Subscription>, ym: YearMonth)
    requires PricesNonNegative(subs)
    ensures 0.0 <= SumPrices(DueIn(subs, ym)) <= SumPrices(subs)
  {
    if subs != [] {
      assert subs[0] in subs;
      assert PricesNonNegative(subs[1..]) by {
        forall s | s in subs[1..] ensures s.price >= 0.0 { assert s in subs; }
      }
      DueInSumBounded(subs[1..], ym);
    }
  }

  /** The ids of a list, in order. */
  function Ids(subs: seq<Subscription>): (r: seq<string>)
    ensures |r| == |subs|
    ensures forall i :: 0 <= i < |subs| ==> r[i] == subs[i].id
  {
    seq(|subs|, i requires 0 <= i < |subs| => subs[i].id)
  }

  /** Ids identify subscriptions: no two positions share one. */
  predicate UniqueIds(subs: seq<Subscription>) {
    forall i, j :: 0 <= i < j < |subs| ==> subs[i].id != subs[j].id
  }

  /** Every next billing date is a real calendar date (a JavaScript `Date`
      always is). */
  predicate ValidBillingDates(subs: seq<Subscription>) {
    forall s :: s in subs ==> ValidDate(s.nextBillingDate)
  }
}
