/** The subscriptions card (components/SubscriptionCard.tsx): the list of
    subscriptions and their monthly total. */
module SubscriptionCard {
  import opened Common
  import opened RecordStore

  /** The amount a subscription adds to the total. */
  function Amount(sub: Subscription): real
  {
    sub.fields.amount
  }

  /** `totalMonthly`: the subscriptions' amounts added up in list order. */
  function TotalMonthly(subs: seq<Subscription>): real
  {
    SumBy(subs, Amount)
  }

  /** The "No subscriptions yet." message. */
  predicate ShowsEmptyState(subs: seq<Subscription>)
  {
    |subs| == 0
  }

  /** An empty list totals 0, so a card with a non-zero total never shows the
      empty-state message. */
  lemma EmptyCard(subs: seq<Subscription>)
    ensures ShowsEmptyState(subs) ==> TotalMonthly(subs) == 0.0
    ensures TotalMonthly(subs) != 0.0 ==> !ShowsEmptyState(subs)
  {
  }

  /** With non-negative amounts the total is never negative. */
  lemma TotalMonthlyNonNegative(subs: seq<Subscription>)
    requires forall i :: 0 <= i < |subs| ==> Amount(subs[i]) >= 0.0
    ensures TotalMonthly(subs) >= 0.0
  {
    SumByNonNegative(subs, Amount);
  }

  /** The total does not depend on the order of the list. */
  lemma TotalMonthlyReorder(subs: seq<Subscription>, shuffled: seq<Subscription>)
    requires multiset(subs) == multiset(shuffled)
    ensures TotalMonthly(subs) == TotalMonthly(shuffled)
  {
    SumByPermutation(subs, shuffled, Amount);
  }

  /** One more subscription raises the total by exactly its amount. */
  lemma TotalMonthlyAppend(subs: seq<Subscription>, sub: Subscription)
    ensures TotalMonthly(subs + [sub]) == TotalMonthly(subs) + sub.fields.amount
  {
    SumBySnoc(subs, sub, Amount);
  }

  /** `addSubscription` raises the caller's monthly total by the amount
      entered, unchecked, and leaves every other user's total alone. */
  lemma AddSubscriptionTotal(s: Store, u: UserId, name: string, amount: real, dueDay: int, v: UserId)
    requires v != u
    ensures
      var t := AddSubscription(s, Some(u), name, amount, dueDay).store;
      && TotalMonthly(OwnedBy(t.subscriptions, u)) == TotalMonthly(OwnedBy(s.subscriptions, u)) + amount
      && TotalMonthly(OwnedBy(t.subscriptions, v)) == TotalMonthly(OwnedBy(s.subscriptions, v))
  {
    var row := Owned(s.nextId, u, SubscriptionFields(name, amount, dueDay));
    TotalMonthlyAppend(OwnedBy(s.subscriptions, u), row);
  }
}
