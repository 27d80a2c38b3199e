/** Calendar days as JavaScript's `Date` sees them in the local time zone of
    the server that renders the page (proleptic Gregorian), the day-level arithmetic `setDate(getDate() - i)`
    performs, and the year-less "Jan 28" label that
    `toLocaleDateString('en-US', { month: 'short', day: 'numeric' })` renders. */
module Calendar {

  /** A local calendar day; `month` is 1..12 and `day` 1..31 when `Valid`. */
  datatype Date = Date(year: int, month: int, day: int)

  /** The rendered month/day label; the year is not part of it, and the
      rendering "Jan 28" is one-to-one on (month, day). */
  datatype Label = Label(month: int, day: int)

  predicate IsLeapYear(y: int)
  {
    y % 4 == 0 && (y % 100 != 0 || y % 400 == 0)
  }

  function DaysInMonth(y: int, m: int): (n: int)
    ensures 28 <= n <= 31
    ensures n == 29 <==> m == 2 && IsLeapYear(y)
  {
    if m == 2 then (if IsLeapYear(y) then 29 else 28)
    else if m == 4 || m == 6 || m == 9 || m == 11 then 30
    else 31
  }

  /** A day that exists on the calendar. */
  predicate Valid(d: Date)
  {
    1 <= d.month <= 12 && 1 <= d.day <= DaysInMonth(d.year, d.month)
  }

  /** The label a day is rendered with. */
  function LabelOf(d: Date): Label
  {
    Label(d.month, d.day)
  }

  /** The label forgets the year: the same month and day of any year is
      rendered alike. */
  lemma LabelIgnoresYear(d: Date)
    ensures forall y: int :: LabelOf(d.(year := y)) == LabelOf(d)
  {
  }

  /** Two days share a label exactly when they share month and day, so the
      label tells days of one year apart. */
  lemma SameLabel(d: Date, e: Date)
    ensures LabelOf(d) == LabelOf(e) <==> d.month == e.month && d.day == e.day
    ensures d.year == e.year ==> (LabelOf(d) == LabelOf(e) <==> d == e)
  {
  }

  /** The following day. It is either the next day of the same month or the
      first day of a different month. */
  function Next(d: Date): (r: Date)
    ensures Valid(d) ==> Valid(r)
    ensures Valid(d) ==>
      (r.year == d.year && r.month == d.month && r.day == d.day + 1) ||
      (r.month != d.month && r.day == 1)
  {
    if d.day < DaysInMonth(d.year, d.month) then Date(d.year, d.month, d.day + 1)
    else if d.month < 12 then Date(d.year, d.month + 1, 1)
    else Date(d.year + 1, 1, 1)
  }

  /** The preceding day; on valid days it undoes `Next`. */
  function Prev(d: Date): (r: Date)
    ensures Valid(d) ==> Valid(r) && Next(r) == d
  {
    if d.day > 1 then Date(d.year, d.month, d.day - 1)
    else if d.month > 1 then Date(d.year, d.month - 1, DaysInMonth(d.year, d.month - 1))
    else Date(d.year - 1, 12, 31)
  }

  /** `Next` undoes `Prev` too: the two are inverse bijections on valid days. */
  lemma PrevNext(d: Date)
    requires Valid(d)
    ensures Prev(Next(d)) == d
  {
  }

  /** The day `n` days before `d`: what `d.setDate(d.getDate() - n)` yields. */
  function Back(d: Date, n: nat): (r: Date)
    ensures Valid(d) ==> Valid(r)
  {
    if n == 0 then d else Prev(Back(d, n - 1))
  }

  /** The day `k` days after `d`. */
  function Forward(d: Date, k: nat): (r: Date)
    ensures Valid(d) ==> Valid(r)
  {
    if k == 0 then d else Next(Forward(d, k - 1))
  }

  /** Walking forward `m` days from `n` days back lands `n - m` days back. */
  lemma {:induction false} ForwardBack(d: Date, n: nat, m: nat)
    requires Valid(d)
    requires m <= n
    ensures Forward(Back(d, n), m) == Back(d, n - m)
  {
    if m > 0 {
      ForwardBack(d, n, m - 1);
      assert Back(d, n - m + 1) == Prev(Back(d, n - m));
    }
  }

  /** Within four days of a valid day, either the month is unchanged and the
      day number has advanced by exactly `k`, or the month has changed and the
      day number is at most `k`. */
  lemma {:induction false} ShortDrift(d: Date, k: nat)
    requires Valid(d)
    requires k <= 4
    ensures var e := Forward(d, k);
      (e.month == d.month && e.day == d.day + k) ||
      (e.month != d.month && 1 <= e.day <= k)
  {
    if k > 0 {
      ShortDrift(d, k - 1);
    }
  }

  /** A month/day label does not recur within four days. */
  lemma LabelNoRepeatWithin(d: Date, k: nat)
    requires Valid(d)
    requires 1 <= k <= 4
    ensures LabelOf(Forward(d, k)) != LabelOf(d)
  {
    ShortDrift(d, k);
  }

  /** Any two of the five days ending on `today` carry different labels. */
  lemma {:induction false} WindowLabelsDistinct(today: Date, i: nat, j: nat)
    requires Valid(today)
    requires j < i <= 4
    ensures LabelOf(Back(today, i)) != LabelOf(Back(today, j))
  {
    ForwardBack(today, i, i - j);
    LabelNoRepeatWithin(Back(today, i), i - j);
  }
}
