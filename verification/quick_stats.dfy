/** The quick-statistics strip (components/QuickStats.tsx): the transaction
    count, the top category when there is one, the month-over-month change
    with its trend arrow, and a one-line insight chosen from the change. */
module QuickStats {
  import opened Common

  /** `isIncreasing`: spending went up. */
  predicate IsIncreasing(change: real)
  {
    change > 0.0
  }

  /** The four insight messages. */
  datatype Insight =
    | ReviewBudget    // "Spending increased. Review your budget!"
    | SlightIncrease  // "Slight increase in spending this month."
    | GreatJob        // "Great job! You're spending less!"
    | Stable          // "Spending is stable. Keep it up!"

  /** The insight chain, tried in the source's order. Each message owns one
      band of the change: above 10, (0, 10], below -10, and [-10, 0]. */
  function InsightFor(change: real): (r: Insight)
    ensures r == ReviewBudget <==> change > 10.0
    ensures r == SlightIncrease <==> 0.0 < change <= 10.0
    ensures r == GreatJob <==> change < -10.0
    ensures r == Stable <==> -10.0 <= change <= 0.0
  {
    if IsIncreasing(change) && change > 10.0 then ReviewBudget
    else if IsIncreasing(change) && change > 0.0 then SlightIncrease
    else if change < -10.0 then GreatJob
    else Stable
  }

  /** How alarming a message is, from "great job" up to "review your budget". */
  function Severity(i: Insight): nat
  {
    match i
    case GreatJob => 0
    case Stable => 1
    case SlightIncrease => 2
    case ReviewBudget => 3
  }

  /** Spending more never yields a milder message. */
  lemma InsightMonotone(x: real, y: real)
    requires x <= y
    ensures Severity(InsightFor(x)) <= Severity(InsightFor(y))
  {
  }

  /** The boundaries: exactly 10 is a slight increase, exactly -10 is stable,
      and no change at all is stable and not an increase. */
  lemma InsightBoundaries()
    ensures InsightFor(10.0) == SlightIncrease
    ensures InsightFor(-10.0) == Stable
    ensures InsightFor(0.0) == Stable && !IsIncreasing(0.0)
  {
  }

  /** The "vs Last Month" figure: a `+` prefix and the magnitude (before
      `toFixed(1)` rounding). */
  datatype ChangeText = ChangeText(plus: bool, magnitude: real)

  /** `{isIncreasing ? '+' : ''}{Math.abs(expenseChange)}`. */
  function ShowChange(change: real): (r: ChangeText)
    ensures r.plus <==> IsIncreasing(change)
    ensures r.magnitude >= 0.0
    ensures r.magnitude == change || r.magnitude == -change
  {
    ChangeText(IsIncreasing(change), if change < 0.0 then -change else change)
  }

  /** The number a reader takes the text to mean: the magnitude, negated when
      there is no `+` sign. */
  function Reading(t: ChangeText): real
  {
    if t.plus then t.magnitude else -t.magnitude
  }

  /** A reader recovers the exact change from the text: dropping the minus sign
      of a decrease loses nothing, because a missing `+` marks it. */
  lemma ShowChangeRoundTrip(change: real)
    ensures Reading(ShowChange(change)) == change
  {
  }

  /** Which arrow (and colour) the change block shows. */
  datatype Trend =
    | Up    // TrendingUp, in red
    | Down  // TrendingDown, in emerald

  /** The `topCategory` prop: a category and its amount, or null. */
  datatype TopCategory = TopCategory(category: string, amount: real)

  /** Everything the strip shows. */
  datatype Strip = Strip(
    transactions: int,
    topCategory: Option<string>,
    trend: Trend,
    change: ChangeText,
    insight: Insight)

  /** The whole component as a function of its three props. */
  function Render(totalTransactions: int, topCategory: Option<TopCategory>, change: real): (r: Strip)
    ensures r.transactions == totalTransactions
    ensures r.topCategory.Some? <==> topCategory.Some?
    ensures topCategory.Some? ==> r.topCategory == Some(topCategory.value.category)
    ensures r.trend == Up <==> IsIncreasing(change)
    ensures r.change.plus <==> r.trend == Up
    ensures Reading(r.change) == change
    ensures r.insight == ReviewBudget || r.insight == SlightIncrease <==> r.trend == Up
  {
    var top := match topCategory
      case Some(t) => Some(t.category)
      case None => None;
    ShowChangeRoundTrip(change);
    Strip(totalTransactions, top, if IsIncreasing(change) then Up else Down,
          ShowChange(change), InsightFor(change))
  }
}
