/** The spending panel: the subscriptions due in the selected month, one pie
    slice per subscription, the panel's own total, and the slice colours. */
module SpendingAnalytics {
  import opened Dates
  import opened Subscriptions
  import Calculations

  /** The six slice colours, used in turn. */
  const Colors: seq<string> := ["#0088FE", "#00C49F", "#FFBB28", "#FF8042", "#8884D8", "#82CA9D"]

  /** One pie slice (and legend row): a subscription's name and price. */
  datatype PieEntry = PieEntry(name: string, value: real)

  /** monthlySubscriptions: the subscriptions whose next billing date is in the
      month and year of the selected date, in list order. */
  function MonthlySubscriptions(subs: seq<Subscription>, selectedDate: Date): (r: seq<Subscription>)
    ensures forall s :: s in r <==> s in subs && IsDueIn(s, MonthOf(selectedDate))
    ensures multiset(r) <= multiset(subs)
  {
    DueInSubMultiset(subs, MonthOf(selectedDate));
    DueIn(subs, MonthOf(selectedDate))
  }

  /** data: one entry per subscription of the month, in the same order, carrying
      its name and its price. */
  function PieData(monthly: seq<Subscription>): (r: seq<PieEntry>)
    ensures |r| == |monthly|
    ensures forall i :: 0 <= i < |monthly| ==> r[i].name == monthly[i].name && r[i].value == monthly[i].price
  {
    if monthly == [] then [] else [PieEntry(monthly[0].name, monthly[0].price)] + PieData(monthly[1..])
  }

  /** Sum of the values of a list of entries. */
  function ValueTotal(data: seq<PieEntry>): real {
    if data == [] then 0.0 else data[0].value + ValueTotal(data[1..])
  }

  /** The `reduce` over the entries: a running sum from the left. */
  function ReduceValues(sum: real, data: seq<PieEntry>): (r: real)
    ensures r == sum + ValueTotal(data)
    decreases |data|
  {
    if data == [] then sum else ReduceValues(sum + data[0].value, data[1..])
  }

  /** The entries' values add up to the prices of the subscriptions they show. */
  lemma {:induction false} PieDataTotal(monthly: seq<Subscription>)
    ensures ValueTotal(PieData(monthly)) == SumPrices(monthly)
  {
    if monthly != [] {
      assert PieData(monthly)[1..] == PieData(monthly[1..]);
      PieDataTotal(monthly[1..]);
    }
  }

  /** The panel's totalSpend: the same amount calculateTotalSpend gives for the
      same list and date, since both apply the same month-and-year test; zero
      when nothing is due that month. */
  function PanelTotal(subs: seq<Subscription>, selectedDate: Date): (r: real)
    ensures r == Calculations.TotalSpend(subs, selectedDate)
    ensures MonthlySubscriptions(subs, selectedDate) == [] ==> r == 0.0
  {
    var data := PieData(MonthlySubscriptions(subs, selectedDate));
    PieDataTotal(MonthlySubscriptions(subs, selectedDate));
    ReduceValues(0.0, data)
  }

  /** `COLORS[index % COLORS.length]`: always one of the six colours. */
  function ColorFor(index: nat): (c: string)
    ensures c in Colors
  {
    Colors[index % |Colors|]
  }

  /** Colours repeat every six entries. */
  lemma ColorsCycle(index: nat)
    ensures ColorFor(index + |Colors|) == ColorFor(index)
  {
    assert (index + 6) % 6 == index % 6;
  }

  /** Any six consecutive entries get six different colours. */
  lemma NearbyColorsDiffer(i: nat, j: nat)
    requires i < j < i + |Colors|
    ensures ColorFor(i) != ColorFor(j)
  {
    var a, b := i % 6, j % 6;
    assert a != b by {
      assert j == i + (j - i) && 0 < j - i < 6;
    }
    assert forall p, q :: 0 <= p < q < 6 ==> Colors[p] != Colors[q] by {
      assert Colors[0][1] == '0' && Colors[1][1] == '0' && Colors[2][1] == 'F';
      assert Colors[3][1] == 'F' && Colors[4][1] == '8' && Colors[5][1] == '8';
      assert Colors[0][3] != Colors[1][3] && Colors[2][3] != Colors[3][3] && Colors[4][3] != Colors[5][3];
    }
  }
}
