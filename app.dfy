/** The top-level component: the subscription list and the handlers that
    replace it, the selected date, the add/edit form flags, and the month
    total that an effect recomputes whenever the list or the date changes. */
module AppComponent {
  import opened Dates
  import opened Subscriptions
  import opened Wrappers
  import opened Calculations
  import CalendarComponent

  /** handleAddSubscription's new list: the old one with the new subscription
      at the end. */
  function AddSubscription(subs: seq<Subscription>, s: Subscription): (r: seq<Subscription>)
    ensures |r| == |subs| + 1
    ensures r[..|subs|] == subs && r[|subs|] == s
  {
    subs + [s]
  }

  /** handleDeleteSubscription's new list: every subscription with the given id
      is dropped, all others are kept in their order. */
  function DeleteSubscription(subs: seq<Subscription>, id: string): (r: seq<Subscription>)
    ensures forall x :: x in r <==> x in subs && x.id != id
    ensures |r| <= |subs|
    ensures (forall x :: x in subs ==> x.id != id) ==> r == subs
  {
    if subs == [] then []
    else
      assert subs == [subs[0]] + subs[1..];
      if subs[0].id == id then DeleteSubscription(subs[1..], id)
      else [subs[0]] + DeleteSubscription(subs[1..], id)
  }

  /** Deleting keeps the relative order: it splits over concatenation. */
  lemma {:induction false} DeleteSubscriptionAppend(a: seq<Subscription>, b: seq<Subscription>, id: string)
    ensures DeleteSubscription(a + b, id) == DeleteSubscription(a, id) + DeleteSubscription(b, id)
  {
    if a == [] {
      assert a + b == b;
    } else {
      assert (a + b)[0] == a[0] && (a + b)[1..] == a[1..] + b;
      DeleteSubscriptionAppend(a[1..], b, id);
    }
  }

  /** Deleting the same id twice is deleting it once. */
  lemma DeleteSubscriptionIdempotent(subs: seq<Subscription>, id: string)
    ensures DeleteSubscription(DeleteSubscription(subs, id), id) == DeleteSubscription(subs, id)
  {
  }

  /** Adding a subscription under a fresh id and then deleting that id gives
      back the original list. */
  lemma DeleteUndoesAdd(subs: seq<Subscription>, s: Subscription)
    requires s.id !in Ids(subs)
    ensures DeleteSubscription(AddSubscription(subs, s), s.id) == subs
  {
    DeleteSubscriptionAppend(subs, [s], s.id);
    forall x | x in subs ensures x.id != s.id {
      var k :| 0 <= k < |subs| && subs[k] == x;
      assert Ids(subs)[k] == x.id;
    }
    assert [s][1..] == [];
  }

  /** handleEditSubscription's new list: every subscription with the updated
      one's id is replaced by it; length, order and all other entries stay. */
  function EditSubscription(subs: seq<Subscription>, updated: Subscription): (r: seq<Subscription>)
    ensures |r| == |subs|
    ensures forall i :: 0 <= i < |subs| ==> r[i] == Replaced(subs[i], updated)
  {
    if subs == [] then []
    else [Replaced(subs[0], updated)] + EditSubscription(subs[1..], updated)
  }

  /** One entry after an edit: the updated subscription when the ids agree,
      the entry itself otherwise. */
  function Replaced(s: Subscription, updated: Subscription): Subscription {
    if s.id == updated.id then updated else s
  }

  /** Editing never changes the ids or their order, so it keeps ids unique;
      editing with an id not in the list leaves the list as it was. */
  lemma EditSubscriptionFrame(subs: seq<Subscription>, updated: Subscription)
    ensures Ids(EditSubscription(subs, updated)) == Ids(subs)
    ensures UniqueIds(subs) ==> UniqueIds(EditSubscription(subs, updated))
    ensures updated.id !in Ids(subs) ==> EditSubscription(subs, updated) == subs
  {
    var r := EditSubscription(subs, updated);
    if updated.id !in Ids(subs) {
      forall i | 0 <= i < |subs| ensures r[i] == subs[i] {
        assert Ids(subs)[i] == subs[i].id;
      }
    }
  }

  /** Adding under a fresh id and deleting keep ids unique. */
  lemma UniqueIdsPreserved(subs: seq<Subscription>, s: Subscription, id: string)
    requires UniqueIds(subs)
    ensures s.id !in Ids(subs) ==> UniqueIds(AddSubscription(subs, s))
    ensures UniqueIds(DeleteSubscription(subs, id))
  {
    if s.id !in Ids(subs) {
      var r := AddSubscription(subs, s);
      forall i, j | 0 <= i < j < |r| ensures r[i].id != r[j].id {
        if j == |subs| { assert Ids(subs)[i] == r[i].id; }
      }
    }
    DeleteKeepsUniqueIds(subs, id);
  }

  /** A list whose head id is absent from a unique-id tail has unique ids. */
  lemma ConsUniqueIds(h: Subscription, tail: seq<Subscription>)
    requires UniqueIds(tail)
    requires forall x :: x in tail ==> x.id != h.id
    ensures UniqueIds([h] + tail)
  {
    var r := [h] + tail;
    forall i, j | 0 <= i < j < |r| ensures r[i].id != r[j].id {
      if i == 0 { assert r[j] == tail[j - 1]; assert r[j] in tail; }
    }
  }

  lemma {:induction false} DeleteKeepsUniqueIds(subs: seq<Subscription>, id: string)
    requires UniqueIds(subs)
    ensures UniqueIds(DeleteSubscription(subs, id))
  {
    if subs != [] {
      var rest := subs[1..];
      assert UniqueIds(rest) by {
        forall i, j | 0 <= i < j < |rest| ensures rest[i].id != rest[j].id {
          assert rest[i] == subs[i + 1] && rest[j] == subs[j + 1];
        }
      }
      DeleteKeepsUniqueIds(rest, id);
      if subs[0].id != id {
        var tail := DeleteSubscription(rest, id);
        forall x | x in tail ensures x.id != subs[0].id {
          var k :| 0 <= k < |rest| && rest[k] == x;
          assert subs[k + 1] == x;
        }
        ConsUniqueIds(subs[0], tail);
      }
    }
  }

  /** After an add, the month total grows by the new subscription's price when
      it is due in the selected month, and not otherwise. */
  lemma TotalSpendAfterAdd(subs: seq<Subscription>, s: Subscription, selectedDate: Date)
    ensures TotalSpend(AddSubscription(subs, s), selectedDate) ==
      TotalSpend(subs, selectedDate) + (if IsDueIn(s, MonthOf(selectedDate)) then s.price else 0.0)
  {
    TotalSpendAppend(subs, [s], selectedDate);
    TotalSpendSingle(s, selectedDate);
  }

  /** The two subscriptions the application starts with, both due on
      30 October 2024. */
  function InitialSubscriptions(): seq<Subscription> {
    [ Subscription("1", "Amazon Prime", "Amazon", "https://logo.clearbit.com/amazon.com",
                   3.45, Monthly, Date(2024, 9, 30), Date(2023, 0, 1)),
      Subscription("2", "GoDaddy Hosting", "GoDaddy", "https://logo.clearbit.com/godaddy.com",
                   3.99, Monthly, Date(2024, 9, 30), Date(2023, 0, 1)) ]
  }

  /** On the initial list: October 2024 totals 7.44, November 2024 nothing. */
  lemma InitialTotals()
    ensures TotalSpend(InitialSubscriptions(), Date(2024, 9, 15)) == 7.44
    ensures TotalSpend(InitialSubscriptions(), Date(2024, 10, 1)) == 0.0
  {
    var subs := InitialSubscriptions();
    assert DueIn(subs, YearMonth(2024, 9)) == subs;
    assert DueIn(subs, YearMonth(2024, 10)) == [];
  }

  /** On the initial list, 30 October 2024 holds both subscriptions in list
      order and every other day of October 2024 holds none. */
  lemma InitialCalendar()
    ensures CalendarComponent.SubscriptionsForDay(InitialSubscriptions(), Date(2024, 9, 30)) == InitialSubscriptions()
    ensures forall d :: 1 <= d <= 31 && d != 30 ==>
      CalendarComponent.SubscriptionsForDay(InitialSubscriptions(), Date(2024, 9, d)) == []
  {
    var subs := InitialSubscriptions();
    assert subs[1..][1..] == [];
    forall d | 1 <= d <= 31 && d != 30
      ensures CalendarComponent.SubscriptionsForDay(subs, Date(2024, 9, d)) == []
    {
      var date := Date(2024, 9, d);
      assert !CalendarComponent.IsDueOn(subs[0], date) && !CalendarComponent.IsDueOn(subs[1], date);
      assert CalendarComponent.SubscriptionsForDay(subs[1..][1..], date) == [];
      assert CalendarComponent.SubscriptionsForDay(subs[1..], date) == [];
    }
  }

  /** With no subscriptions every one of the twelve projected months is zero. */
  lemma EmptyProjection(start: YearMonth, r: seq<MonthlySpend>)
    requires IsProjection([], start, r)
    ensures |r| == 12 && forall i :: 0 <= i < 12 ==> r[i].amount == 0.0
  {
  }

  /** The application state. Valid() is what the effect on [subscriptions,
      selectedDate] re-establishes after every change: the shown total is the
      month total of the current list for the current date. */
  class App {
    var subscriptions: seq<Subscription>
    var selectedDate: Date
    var showAddForm: bool
    var totalSpend: real
    var editingSubscription: Option<Subscription>

    ghost predicate Valid()
      reads this
    {
      totalSpend == TotalSpend(subscriptions, selectedDate)
    }

    /** The add/edit form is shown while an add is requested or an edit is
        under way. */
    predicate FormVisible()
      reads this
    {
      showAddForm || editingSubscription.Some?
    }

    /** The initial state, after the effect has run once; `today` stands for
        the clock reading `new Date()`. */
    constructor (today: Date)
      ensures Valid()
      ensures subscriptions == InitialSubscriptions() && selectedDate == today
      ensures !showAddForm && editingSubscription == None && !FormVisible()
    {
      subscriptions := InitialSubscriptions();
      selectedDate := today;
      showAddForm := false;
      editingSubscription := None;
      totalSpend := TotalSpend(InitialSubscriptions(), today);
    }

    /** handleDateChange, followed by the effect. */
    method HandleDateChange(date: Date)
      modifies this
      ensures Valid()
      ensures selectedDate == date && subscriptions == old(subscriptions)
      ensures showAddForm == old(showAddForm) && editingSubscription == old(editingSubscription)
    {
      selectedDate := date;
      totalSpend := TotalSpend(subscriptions, selectedDate);
    }

    /** handleAddSubscription, followed by the effect: append and hide the form. */
    method HandleAddSubscription(newSubscription: Subscription)
      modifies this
      ensures Valid()
      ensures subscriptions == AddSubscription(old(subscriptions), newSubscription)
      ensures selectedDate == old(selectedDate) && !showAddForm
      ensures editingSubscription == old(editingSubscription)
    {
      subscriptions := AddSubscription(subscriptions, newSubscription);
      showAddForm := false;
      totalSpend := TotalSpend(subscriptions, selectedDate);
    }

    /** handleDeleteSubscription, followed by the effect. */
    method HandleDeleteSubscription(id: string)
      modifies this
      ensures Valid()
      ensures subscriptions == DeleteSubscription(old(subscriptions), id)
      ensures selectedDate == old(selectedDate)
      ensures showAddForm == old(showAddForm) && editingSubscription == old(editingSubscription)
    {
      subscriptions := DeleteSubscription(subscriptions, id);
      totalSpend := TotalSpend(subscriptions, selectedDate);
    }

    /** handleEditSubscription, followed by the effect: replace by id and end
        the edit. The add flag is left as it was. */
    method HandleEditSubscription(updatedSubscription: Subscription)
      modifies this
      ensures Valid()
      ensures subscriptions == EditSubscription(old(subscriptions), updatedSubscription)
      ensures selectedDate == old(selectedDate) && showAddForm == old(showAddForm)
      ensures editingSubscription == None
      ensures FormVisible() == old(showAddForm)
    {
      subscriptions := EditSubscription(subscriptions, updatedSubscription);
      editingSubscription := None;
      totalSpend := TotalSpend(subscriptions, selectedDate);
    }

    /** The "Add Subscription" button. */
    method OpenAddForm()
      requires Valid()
      modifies this
      ensures Valid()
      ensures showAddForm && FormVisible()
      ensures subscriptions == old(subscriptions) && selectedDate == old(selectedDate)
      ensures totalSpend == old(totalSpend) && editingSubscription == old(editingSubscription)
    {
      showAddForm := true;
    }

    /** The list's edit action: remember the subscription being edited. */
    method StartEditing(s: Subscription)
      requires Valid()
      modifies this
      ensures Valid()
      ensures editingSubscription == Some(s) && FormVisible()
      ensures subscriptions == old(subscriptions) && selectedDate == old(selectedDate)
      ensures totalSpend == old(totalSpend) && showAddForm == old(showAddForm)
    {
      editingSubscription := Some(s);
    }

    /** The form's cancel action: clear both flags, hiding the form. */
    method CancelForm()
      requires Valid()
      modifies this
      ensures Valid()
      ensures !showAddForm && editingSubscription == None && !FormVisible()
      ensures subscriptions == old(subscriptions) && selectedDate == old(selectedDate)
      ensures totalSpend == old(totalSpend)
    {
      showAddForm := false;
      editingSubscription := None;
    }

    /** The form's submit: while an edit is under way it goes to
        handleEditSubscription, otherwise to handleAddSubscription. */
    method SubmitForm(s: Subscription)
      modifies this
      ensures Valid()
      ensures selectedDate == old(selectedDate) && editingSubscription == None
      ensures old(editingSubscription).Some? ==>
        subscriptions == EditSubscription(old(subscriptions), s) && showAddForm == old(showAddForm)
      ensures old(editingSubscription).None? ==>
        subscriptions == AddSubscription(old(subscriptions), s) && !showAddForm && !FormVisible()
    {
      if editingSubscription.Some? {
        HandleEditSubscription(s);
      } else {
        HandleAddSubscription(s);
      }
    }
  }
}
