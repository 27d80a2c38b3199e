/** The dashboard page's aggregation: from the signed-in user's expense rows,
    budget row and the current day to the numbers and chart series the page
    renders (total spent, remaining budget, percentage used, progress bar,
    category breakdown, five-day history). */
module Dashboard {
  import opened Common
  import opened Calendar
  import opened OrderedMap
  import opened RecordStore

  /** The progress-bar colour class. */
  datatype Colour = Red | Orange | Emerald

  /** What the page computes before rendering. */
  datatype View = View(
    totalSpent: real,
    budgetLimit: real,
    remaining: real,
    percentage: real,
    barWidth: real,
    barColour: Colour,
    pieData: seq<Entry<string, real>>,
    barData: seq<Entry<Label, real>>)

  /** The number of days in the history series. */
  const HistoryDays: nat := 5

  function ExpenseAmount(e: Expense): real
  {
    e.fields.amount
  }

  // ---------------------------------------------------------------------
  // Totals and budget
  // ---------------------------------------------------------------------

  /** `expenses.reduce((sum, item) => sum + item.amount, 0)`: every fetched row
      counts, whatever its category or type. */
  function TotalSpent(rows: seq<Expense>): real
  {
    SumBy(rows, ExpenseAmount)
  }

  /** The total does not depend on the order the rows were fetched in. */
  lemma TotalSpentOrderIndependent(rows: seq<Expense>, reordered: seq<Expense>)
    requires multiset(rows) == multiset(reordered)
    ensures TotalSpent(rows) == TotalSpent(reordered)
  {
    SumByPermutation(rows, reordered, ExpenseAmount);
  }

  /** One more row adds exactly its amount to the total. */
  lemma TotalSpentAppend(rows: seq<Expense>, e: Expense)
    ensures TotalSpent(rows + [e]) == TotalSpent(rows) + e.fields.amount
  {
    assert (rows + [e])[..|rows|] == rows;
  }

  /** `budgetData?.amount || 0`, where `budgetData` is the user's first budget
      row; 0 when signed out or when the user has none. */
  function BudgetLimit(s: Store, user: Option<UserId>): (limit: real)
    ensures user.None? ==> limit == 0.0
    ensures user.Some? && |OwnedBy(s.budgets, user.value)| == 0 ==> limit == 0.0
    ensures user.Some? && |OwnedBy(s.budgets, user.value)| > 0 ==>
      limit == OwnedBy(s.budgets, user.value)[0].fields.amount
  {
    if user.None? then 0.0
    else
      OwnsNoneIffNotFound(s.budgets, user.value);
      match FirstOwnedIndex(s.budgets, user.value)
      case None => 0.0
      case Some(i) =>
        FirstOwnedIsFirstOfOwned(s.budgets, user.value);
        s.budgets[i].fields.amount
  }

  /** The row `findFirst` returns is the first of the rows `findMany` returns. */
  lemma FirstOwnedIsFirstOfOwned<T>(rows: seq<Owned<T>>, u: UserId)
    requires FirstOwnedIndex(rows, u).Some?
    ensures |OwnedBy(rows, u)| > 0
    ensures OwnedBy(rows, u)[0] == rows[FirstOwnedIndex(rows, u).value]
  {
    var i := FirstOwnedIndex(rows, u).value;
    var p := (x: Owned<T>) => x.owner == u;
    assert rows == rows[..i] + [rows[i]] + rows[i + 1..];
    KeepAppend(rows[..i] + [rows[i]], rows[i + 1..], p);
    KeepSnoc(rows[..i], rows[i], p);
    var before := Keep(rows[..i], p);
    if |before| > 0 {
      KeepMembership(rows[..i], p, before[0]);
    }
  }

  /** `budgetLimit > 0 ? (totalExpenses / budgetLimit) * 100 : 0`. */
  function Percentage(spent: real, limit: real): (p: real)
    ensures limit <= 0.0 ==> p == 0.0
    ensures limit > 0.0 ==> p * limit == spent * 100.0
    ensures limit > 0.0 ==> (p > 100.0 <==> spent > limit)
    ensures limit > 0.0 ==> (p > 75.0 <==> 4.0 * spent > 3.0 * limit)
    ensures spent >= 0.0 ==> p >= 0.0
  {
    if limit > 0.0 then
      var p := spent / limit * 100.0;
      ScaledCompare(p, spent, limit, 100.0);
      ScaledCompare(p, spent, limit, 75.0);
      ScaledCompare(p, spent, limit, 0.0);
      p
    else 0.0
  }

  /** With `p * limit == spent * 100` and a positive limit, comparing `p` with
      `k` is comparing `spent * 100` with `k * limit`. */
  lemma ScaledCompare(p: real, spent: real, limit: real, k: real)
    requires limit > 0.0
    requires p * limit == spent * 100.0
    ensures p > k <==> spent * 100.0 > k * limit
    ensures p >= k <==> spent * 100.0 >= k * limit
  {
    assert p * limit - k * limit == (p - k) * limit;
    if p > k {
      assert (p - k) * limit > 0.0;
    } else if p < k {
      assert (k - p) * limit > 0.0;
    }
  }

  /** `Math.min(percentage, 100)`: the bar never overflows its track. */
  function BarWidth(p: real): (w: real)
    ensures w <= 100.0
    ensures w == p || w == 100.0
    ensures p <= 100.0 ==> w == p
  {
    if p < 100.0 then p else 100.0
  }

  /** The colour chain `p > 100 ? red : p > 75 ? orange : emerald`, as three
      exclusive bands covering every percentage. */
  function BarColour(p: real): (c: Colour)
    ensures c == Red <==> p > 100.0
    ensures c == Orange <==> 75.0 < p <= 100.0
    ensures c == Emerald <==> p <= 75.0
  {
    if p > 100.0 then Red else if p > 75.0 then Orange else Emerald
  }

  // ---------------------------------------------------------------------
  // Category breakdown (the pie chart)
  // ---------------------------------------------------------------------

  /** The category of every row, in row order. */
  function CategoriesOf(rows: seq<Expense>): (cs: seq<string>)
    ensures |cs| == |rows|
    ensures forall i :: 0 <= i < |rows| ==> cs[i] == rows[i].fields.category
  {
    if |rows| == 0 then [] else CategoriesOf(rows[..|rows| - 1]) + [rows[|rows| - 1].fields.category]
  }

  /** Position of the first occurrence of `x`. */
  function FirstIndex(xs: seq<string>, x: string): (i: nat)
    requires x in xs
    ensures i < |xs| && xs[i] == x
    ensures forall j :: 0 <= j < i ==> xs[j] != x
  {
    if xs[0] == x then 0 else 1 + FirstIndex(xs[1..], x)
  }

  /** The rows filed under category `c`. */
  function InCategory(rows: seq<Expense>, c: string): seq<Expense>
  {
    Keep(rows, (e: Expense) => e.fields.category == c)
  }

  /** The amount spent in category `c`. */
  function CategorySum(rows: seq<Expense>, c: string): real
  {
    SumBy(InCategory(rows, c), ExpenseAmount)
  }

  /** A row adds its amount to its own category's sum and to no other. */
  lemma CategorySumLast(rows: seq<Expense>, c: string)
    requires |rows| > 0
    ensures CategorySum(rows, c) ==
      CategorySum(rows[..|rows| - 1], c) +
      (if rows[|rows| - 1].fields.category == c then rows[|rows| - 1].fields.amount else 0.0)
  {
    SumByKeepLast(rows, (e: Expense) => e.fields.category == c, ExpenseAmount);
  }

  /** A category no row carries sums to zero. */
  lemma CategorySumAbsent(rows: seq<Expense>, c: string)
    requires c !in CategoriesOf(rows)
    ensures CategorySum(rows, c) == 0.0
  {
    var kept := InCategory(rows, c);
    if |kept| > 0 {
      KeepMembership(rows, (e: Expense) => e.fields.category == c, kept[0]);
    }
  }

  /** `chartDataMap`: for each row in order,
      `map.set(category, (map.get(category) || 0) + amount)`. */
  function CategoryTotals(rows: seq<Expense>): (m: seq<Entry<string, real>>)
    ensures DistinctKeys(m)
  {
    if |rows| == 0 then []
    else
      var m := CategoryTotals(rows[..|rows| - 1]);
      var e := rows[|rows| - 1];
      AddAtKeys(m, e.fields.category, e.fields.amount);
      AddAt(m, e.fields.category, e.fields.amount)
  }

  /** The fold's last step, named so that proofs can take it without
      unfolding the whole fold. */
  lemma CategoryTotalsLast(rows: seq<Expense>)
    requires |rows| > 0
    ensures CategoryTotals(rows) ==
      AddAt(CategoryTotals(rows[..|rows| - 1]), rows[|rows| - 1].fields.category, rows[|rows| - 1].fields.amount)
  {
  }

  /** The pie has an entry for exactly the categories some row carries. */
  lemma {:induction false} CategoryTotalsKeys(rows: seq<Expense>, c: string)
    ensures Has(CategoryTotals(rows), c) <==> c in CategoriesOf(rows)
    decreases |rows|
  {
    if |rows| > 0 {
      var init, e := rows[..|rows| - 1], rows[|rows| - 1];
      CategoryTotalsKeys(init, c);
      CategoryTotalsLast(rows);
      AddAtHas(CategoryTotals(init), e.fields.category, e.fields.amount, c);
      assert CategoriesOf(rows) == CategoriesOf(init) + [e.fields.category];
    }
  }

  /** The number the pie shows for category `c` (0 when it has no entry) is
      the sum of that category's rows. */
  lemma {:induction false} CategoryTotalsSum(rows: seq<Expense>, c: string)
    ensures GetOrZero(CategoryTotals(rows), c) == CategorySum(rows, c)
    decreases |rows|
  {
    if |rows| > 0 {
      var init, e := rows[..|rows| - 1], rows[|rows| - 1];
      CategoryTotalsSum(init, c);
      CategoryTotalsLast(rows);
      AddAtGet(CategoryTotals(init), e.fields.category, e.fields.amount, c);
      CategorySumLast(rows, c);
    }
  }

  /** Each pie entry is its category's sum. */
  lemma CategoryTotalsEntries(rows: seq<Expense>)
    ensures var m := CategoryTotals(rows);
      forall i :: 0 <= i < |m| ==> m[i].value == CategorySum(rows, m[i].key)
  {
    var m := CategoryTotals(rows);
    forall i | 0 <= i < |m| ensures m[i].value == CategorySum(rows, m[i].key) {
      CategoryTotalsSum(rows, m[i].key);
      assert IndexOf(m, m[i].key) == Some(i);
    }
  }

  /** The entries add up to the total spent, so no row is lost or counted twice. */
  lemma {:induction false} CategoryTotalsAddUp(rows: seq<Expense>)
    ensures SumValues(CategoryTotals(rows)) == TotalSpent(rows)
    decreases |rows|
  {
    if |rows| > 0 {
      var init, e := rows[..|rows| - 1], rows[|rows| - 1];
      CategoryTotalsAddUp(init);
      CategoryTotalsLast(rows);
      AddAtSum(CategoryTotals(init), e.fields.category, e.fields.amount);
    }
  }

  /** The keys of `m` all occur in `cs`, and in the order of their first
      occurrence there. */
  predicate FirstSeenOrder(m: seq<Entry<string, real>>, cs: seq<string>)
  {
    forall i, j :: 0 <= i < j < |m| ==>
      m[i].key in cs && m[j].key in cs && FirstIndex(cs, m[i].key) < FirstIndex(cs, m[j].key)
  }

  /** Appending to a sequence does not move the first occurrence of an element
      already present. */
  lemma FirstIndexSnoc(cs: seq<string>, x: string, y: string)
    requires y in cs
    ensures FirstIndex(cs + [x], y) == FirstIndex(cs, y)
  {
    assert (cs + [x])[FirstIndex(cs, y)] == y;
  }

  /** A newly appended element is first met at the end. */
  lemma FirstIndexNew(cs: seq<string>, x: string)
    requires x !in cs
    ensures FirstIndex(cs + [x], x) == |cs|
  {
    assert (cs + [x])[|cs|] == x;
  }

  /** One fold step keeps the keys in first-seen order. */
  lemma AddAtFirstSeenOrder(m: seq<Entry<string, real>>, cs: seq<string>, k: string, a: real)
    requires DistinctKeys(m)
    requires forall c :: Has(m, c) <==> c in cs
    requires FirstSeenOrder(m, cs)
    ensures FirstSeenOrder(AddAt(m, k, a), cs + [k])
  {
    var r, cs' := AddAt(m, k, a), cs + [k];
    AddAtKeys(m, k, a);
    forall i, j | 0 <= i < j < |r|
      ensures r[i].key in cs' && r[j].key in cs'
      ensures FirstIndex(cs', r[i].key) < FirstIndex(cs', r[j].key)
    {
      assert Keys(r)[i] == r[i].key && Keys(r)[j] == r[j].key;
      assert Keys(m)[i] == m[i].key;
      assert Has(m, m[i].key) by {
        HasKeys(m, m[i].key);
      }
      FirstIndexSnoc(cs, k, m[i].key);
      if j < |m| {
        assert Keys(m)[j] == m[j].key;
        assert Has(m, m[j].key) by {
          HasKeys(m, m[j].key);
        }
        FirstIndexSnoc(cs, k, m[j].key);
      } else {
        FirstIndexNew(cs, k);
      }
    }
  }

  /** Categories appear in the pie in the order they are first met in the rows. */
  lemma {:induction false} CategoryTotalsFirstSeenOrder(rows: seq<Expense>)
    ensures FirstSeenOrder(CategoryTotals(rows), CategoriesOf(rows))
    decreases |rows|
  {
    if |rows| > 0 {
      var init, e := rows[..|rows| - 1], rows[|rows| - 1];
      CategoryTotalsFirstSeenOrder(init);
      CategoryTotalsLast(rows);
      forall c ensures Has(CategoryTotals(init), c) <==> c in CategoriesOf(init) {
        CategoryTotalsKeys(init, c);
      }
      AddAtFirstSeenOrder(CategoryTotals(init), CategoriesOf(init), e.fields.category, e.fields.amount);
    }
  }

  // ---------------------------------------------------------------------
  // Five-day history (the bar chart)
  // ---------------------------------------------------------------------

  /** The labels of the five days ending on `today`, oldest first. */
  function WindowLabels(today: Date): (ls: seq<Label>)
    ensures |ls| == HistoryDays
    ensures forall j :: 0 <= j < HistoryDays ==> ls[j] == LabelOf(Back(today, HistoryDays - 1 - j))
  {
    seq(HistoryDays, j requires 0 <= j < HistoryDays => LabelOf(Back(today, HistoryDays - 1 - j)))
  }

  /** The window is five consecutive days: it starts four days back, each
      label is that of the day after the previous one, and the last is
      today's. */
  lemma WindowConsecutive(today: Date)
    requires Valid(today)
    ensures var first := Back(today, HistoryDays - 1);
      && Valid(first)
      && Forward(first, HistoryDays - 1) == today
      && (forall j :: 0 <= j < HistoryDays ==> WindowLabels(today)[j] == LabelOf(Forward(first, j)))
      && WindowLabels(today)[HistoryDays - 1] == LabelOf(today)
  {
    forall j | 0 <= j < HistoryDays
      ensures WindowLabels(today)[j] == LabelOf(Forward(Back(today, HistoryDays - 1), j))
    {
      ForwardBack(today, HistoryDays - 1, j);
    }
    ForwardBack(today, HistoryDays - 1, HistoryDays - 1);
  }

  /** No label occurs twice. */
  predicate DistinctLabels(ls: seq<Label>)
  {
    forall i, j :: 0 <= i < j < |ls| ==> ls[i] != ls[j]
  }

  /** The window's five labels are pairwise different. */
  lemma WindowDistinct(today: Date)
    requires Valid(today)
    ensures DistinctLabels(WindowLabels(today))
  {
    forall i, j | 0 <= i < j < HistoryDays ensures WindowLabels(today)[i] != WindowLabels(today)[j] {
      WindowLabelsDistinct(today, HistoryDays - 1 - i, HistoryDays - 1 - j);
    }
  }

  /** The seeding loop `for (i = 4; i >= 0; i--) map.set(label(today - i), 0)`:
      every label of `ls`, in order, set to zero. */
  function Seed(ls: seq<Label>): seq<Entry<Label, real>>
  {
    if |ls| == 0 then [] else Put(Seed(ls[..|ls| - 1]), ls[|ls| - 1], 0.0)
  }

  /** Seeding distinct labels yields one zero entry per label, in order. */
  lemma {:induction false} SeedShape(ls: seq<Label>)
    requires DistinctLabels(ls)
    ensures |Seed(ls)| == |ls|
    ensures forall j :: 0 <= j < |ls| ==> Seed(ls)[j] == Entry(ls[j], 0.0)
    decreases |ls|
  {
    if |ls| > 0 {
      SeedShape(ls[..|ls| - 1]);
    }
  }

  /** The seeded map's keys are the labels, each once, and its values zero. */
  lemma SeedKeys(ls: seq<Label>)
    requires DistinctLabels(ls)
    ensures Keys(Seed(ls)) == ls
    ensures DistinctKeys(Seed(ls))
    ensures forall j :: 0 <= j < |ls| ==> Seed(ls)[j].value == 0.0
  {
    SeedShape(ls);
    var m := Seed(ls);
    forall j | 0 <= j < |ls|
      ensures Keys(m)[j] == ls[j]
    {
      assert m[j] == Entry(ls[j], 0.0);
    }
    assert Keys(m) == ls;
  }

  /** The rows whose label is `l`. */
  function OnLabel(rows: seq<Expense>, l: Label): seq<Expense>
  {
    Keep(rows, (e: Expense) => LabelOf(e.fields.date) == l)
  }

  /** The amount of the rows whose label is `l`. */
  function LabelSum(rows: seq<Expense>, l: Label): real
  {
    SumBy(OnLabel(rows, l), ExpenseAmount)
  }

  /** The rows whose label is one of the window's labels. */
  function InWindow(rows: seq<Expense>, today: Date): seq<Expense>
  {
    Keep(rows, (e: Expense) => LabelOf(e.fields.date) in WindowLabels(today))
  }

  /** One step of the `historyMap` fold: a row adds its amount to the entry
      carrying its label, and is skipped when no entry does. */
  function Bump(m: seq<Entry<Label, real>>, e: Expense): seq<Entry<Label, real>>
  {
    var l := LabelOf(e.fields.date);
    if Has(m, l) then AddAt(m, l, e.fields.amount) else m
  }

  /** `historyMap` after seeding and folding in the rows in order. */
  function History(rows: seq<Expense>, today: Date): seq<Entry<Label, real>>
  {
    if |rows| == 0 then Seed(WindowLabels(today))
    else Bump(History(rows[..|rows| - 1], today), rows[|rows| - 1])
  }

  /** The fold's last step, named so that proofs can take it without
      unfolding the whole fold. */
  lemma HistoryLast(rows: seq<Expense>, today: Date)
    requires |rows| > 0
    ensures History(rows, today) == Bump(History(rows[..|rows| - 1], today), rows[|rows| - 1])
  {
  }

  /** A step never adds or moves a key. */
  lemma BumpKeys(m: seq<Entry<Label, real>>, e: Expense)
    requires DistinctKeys(m)
    ensures Keys(Bump(m, e)) == Keys(m)
    ensures DistinctKeys(Bump(m, e))
  {
    AddAtKeys(m, LabelOf(e.fields.date), e.fields.amount);
  }

  /** A step adds the row's amount to the entry carrying its label and to no
      other entry. */
  lemma BumpValue(m: seq<Entry<Label, real>>, e: Expense, j: nat)
    requires DistinctKeys(m)
    requires j < |m|
    ensures |Bump(m, e)| == |m|
    ensures Bump(m, e)[j].value ==
      m[j].value + (if m[j].key == LabelOf(e.fields.date) then e.fields.amount else 0.0)
  {
    AddAtEntry(m, LabelOf(e.fields.date), e.fields.amount, j);
  }

  /** A step raises the sum of the entries by the row's amount exactly when
      some entry carries the row's label. */
  lemma BumpSum(m: seq<Entry<Label, real>>, e: Expense)
    ensures SumValues(Bump(m, e)) ==
      SumValues(m) + (if Has(m, LabelOf(e.fields.date)) then e.fields.amount else 0.0)
  {
    AddAtSum(m, LabelOf(e.fields.date), e.fields.amount);
  }

  /** Whatever the rows, the keys stay the window's five labels, oldest day
      first, each once. */
  lemma {:induction false} HistoryKeys(rows: seq<Expense>, today: Date)
    requires Valid(today)
    ensures Keys(History(rows, today)) == WindowLabels(today)
    ensures DistinctKeys(History(rows, today))
    decreases |rows|
  {
    if |rows| == 0 {
      WindowDistinct(today);
      SeedKeys(WindowLabels(today));
    } else {
      HistoryKeys(rows[..|rows| - 1], today);
      HistoryLast(rows, today);
      BumpKeys(History(rows[..|rows| - 1], today), rows[|rows| - 1]);
    }
  }

  /** The bar for the `j`-th day of the window holds the amount of the rows
      carrying that day's label. */
  lemma {:induction false} HistoryValue(rows: seq<Expense>, today: Date, j: nat)
    requires Valid(today)
    requires j < HistoryDays
    ensures |History(rows, today)| == HistoryDays
    ensures History(rows, today)[j].value == LabelSum(rows, WindowLabels(today)[j])
    decreases |rows|
  {
    HistoryKeys(rows, today);
    if |rows| == 0 {
      WindowDistinct(today);
      SeedKeys(WindowLabels(today));
    } else {
      var init, e := rows[..|rows| - 1], rows[|rows| - 1];
      HistoryValue(init, today, j);
      HistoryKeys(init, today);
      HistoryLast(rows, today);
      var m := History(init, today);
      assert Keys(m)[j] == m[j].key;
      BumpValue(m, e, j);
      SumByKeepLast(rows, (x: Expense) => LabelOf(x.fields.date) == WindowLabels(today)[j], ExpenseAmount);
    }
  }

  /** The bar series has exactly five entries, one per day ending today in
      ascending order; each holds the sum of the rows carrying that day's
      label. */
  lemma HistoryShape(rows: seq<Expense>, today: Date)
    requires Valid(today)
    ensures Keys(History(rows, today)) == WindowLabels(today)
    ensures DistinctKeys(History(rows, today))
    ensures forall j :: 0 <= j < HistoryDays ==>
      History(rows, today)[j].value == LabelSum(rows, WindowLabels(today)[j])
  {
    HistoryKeys(rows, today);
    forall j | 0 <= j < HistoryDays
      ensures History(rows, today)[j].value == LabelSum(rows, WindowLabels(today)[j])
    {
      HistoryValue(rows, today, j);
    }
  }

  /** The bars add up to the amount of the rows whose label falls in the
      window; other rows are dropped. */
  lemma {:induction false} HistoryAddsUp(rows: seq<Expense>, today: Date)
    requires Valid(today)
    ensures SumValues(History(rows, today)) == SumBy(InWindow(rows, today), ExpenseAmount)
    decreases |rows|
  {
    if |rows| == 0 {
      WindowDistinct(today);
      SeedKeys(WindowLabels(today));
      SumByZero(Seed(WindowLabels(today)), ValueOf);
    } else {
      var init, e := rows[..|rows| - 1], rows[|rows| - 1];
      HistoryAddsUp(init, today);
      HistoryKeys(init, today);
      HistoryLast(rows, today);
      HasKeys(History(init, today), LabelOf(e.fields.date));
      BumpSum(History(init, today), e);
      SumByKeepLast(rows, (x: Expense) => LabelOf(x.fields.date) in WindowLabels(today), ExpenseAmount);
    }
  }

  /** With non-negative amounts the bars never show more than the total spent. */
  lemma HistoryAtMostTotal(rows: seq<Expense>, today: Date)
    requires Valid(today)
    requires forall i :: 0 <= i < |rows| ==> rows[i].fields.amount >= 0.0
    ensures SumValues(History(rows, today)) <= TotalSpent(rows)
  {
    HistoryAddsUp(rows, today);
    SumByKeepAtMost(rows, (e: Expense) => LabelOf(e.fields.date) in WindowLabels(today), ExpenseAmount);
  }

  /** Because the label drops the year, a row dated on today's month and day
      one year earlier is not one of the five days, yet it is counted in
      today's bar. */
  lemma PriorYearCollision(today: Date, e: Expense)
    requires Valid(today)
    requires e.fields.date == Date(today.year - 1, today.month, today.day)
    ensures forall i :: 0 <= i < HistoryDays ==> Back(today, i) != e.fields.date
    ensures var h := History([e], today);
      |h| == HistoryDays && h[HistoryDays - 1].value == e.fields.amount
  {
    forall i | 1 <= i < HistoryDays ensures LabelOf(Back(today, i)) != LabelOf(today) {
      WindowLabelsDistinct(today, i, 0);
    }
    HistoryShape([e], today);
    assert [e][..0] == [];
    assert OnLabel([e], WindowLabels(today)[HistoryDays - 1]) == [e] by {
      KeepSnoc([], e, (x: Expense) => LabelOf(x.fields.date) == WindowLabels(today)[HistoryDays - 1]);
    }
    assert SumBy([e], ExpenseAmount) == e.fields.amount;
  }

  // ---------------------------------------------------------------------
  // The page
  // ---------------------------------------------------------------------

  /** `expenses`: the signed-in user's rows (none when signed out). */
  function Fetched(s: Store, user: Option<UserId>): seq<Expense>
  {
    if user.None? then [] else OwnedBy(s.expenses, user.value)
  }

  /** `Home`: every figure the dashboard shows, for `user` on day `today`.
      The pie adds up to the total, the remaining amount is the limit minus
      the total, the bar never overflows, and a signed-out visitor sees
      nothing spent and no budget. The total is the sum of the user's own
      rows, and each slice is its category's sum. */
  function Home(s: Store, user: Option<UserId>, today: Date): (v: View)
    ensures SumValues(v.pieData) == v.totalSpent
    ensures v.remaining == v.budgetLimit - v.totalSpent
    ensures v.barWidth <= 100.0 && (v.percentage <= 100.0 ==> v.barWidth == v.percentage)
    ensures user.None? ==> v.totalSpent == 0.0 && v.budgetLimit == 0.0 && v.pieData == []
    ensures user.Some? ==> v.totalSpent == SumBy(OwnedBy(s.expenses, user.value), ExpenseAmount)
    ensures forall c :: GetOrZero(v.pieData, c) == CategorySum(Fetched(s, user), c)
  {
    var rows := Fetched(s, user);
    CategoryTotalsAddUp(rows);
    assert forall c :: GetOrZero(CategoryTotals(rows), c) == CategorySum(rows, c) by {
      forall c ensures GetOrZero(CategoryTotals(rows), c) == CategorySum(rows, c) {
        CategoryTotalsSum(rows, c);
      }
    }
    var spent := TotalSpent(rows);
    var limit := BudgetLimit(s, user);
    var p := Percentage(spent, limit);
    View(spent, limit, limit - spent, p, BarWidth(p), BarColour(p),
         CategoryTotals(rows), History(rows, today))
  }

  /** Which rows come first matters only to the order of the pie's slices:
      two orderings of the same rows give the same total, the same
      categories with the same amounts, and the same five history bars. */
  lemma FetchOrderIrrelevant(rows: seq<Expense>, reordered: seq<Expense>, today: Date)
    requires multiset(rows) == multiset(reordered)
    requires Valid(today)
    ensures TotalSpent(rows) == TotalSpent(reordered)
    ensures forall c :: Has(CategoryTotals(rows), c) <==> Has(CategoryTotals(reordered), c)
    ensures forall c :: GetOrZero(CategoryTotals(rows), c) == GetOrZero(CategoryTotals(reordered), c)
    ensures History(rows, today) == History(reordered, today)
  {
    TotalSpentOrderIndependent(rows, reordered);
    forall c ensures Has(CategoryTotals(rows), c) <==> Has(CategoryTotals(reordered), c) {
      CategoryTotalsKeys(rows, c);
      CategoryTotalsKeys(reordered, c);
      SameCategories(rows, reordered, c);
      SameCategories(reordered, rows, c);
    }
    forall c ensures GetOrZero(CategoryTotals(rows), c) == GetOrZero(CategoryTotals(reordered), c) {
      CategoryTotalsSum(rows, c);
      CategoryTotalsSum(reordered, c);
      KeepPermutation(rows, reordered, (e: Expense) => e.fields.category == c);
      SumByPermutation(InCategory(rows, c), InCategory(reordered, c), ExpenseAmount);
    }
    HistoryShape(rows, today);
    HistoryShape(reordered, today);
    var h, g := History(rows, today), History(reordered, today);
    forall j | 0 <= j < HistoryDays ensures h[j] == g[j] {
      var l := WindowLabels(today)[j];
      KeepPermutation(rows, reordered, (e: Expense) => LabelOf(e.fields.date) == l);
      SumByPermutation(OnLabel(rows, l), OnLabel(reordered, l), ExpenseAmount);
      assert Keys(h)[j] == Keys(g)[j];
    }
  }

  /** A category carried by some row is carried by some row of any reordering. */
  lemma SameCategories(rows: seq<Expense>, reordered: seq<Expense>, c: string)
    requires multiset(rows) == multiset(reordered)
    ensures c in CategoriesOf(rows) ==> c in CategoriesOf(reordered)
  {
    if c in CategoriesOf(rows) {
      var i :| 0 <= i < |rows| && CategoriesOf(rows)[i] == c;
      assert rows[i] in multiset(reordered);
      var j :| 0 <= j < |reordered| && reordered[j] == rows[i];
      assert CategoriesOf(reordered)[j] == c;
    }
  }

  /** The page's figures fit together: the pie adds up to the total, the
      remaining amount is unclamped, the bar series has five entries. */
  lemma HomeConsistent(s: Store, user: Option<UserId>, today: Date)
    requires Valid(today)
    ensures var v := Home(s, user, today);
      && SumValues(v.pieData) == v.totalSpent
      && v.remaining + v.totalSpent == v.budgetLimit
      && v.barWidth <= 100.0
      && (v.budgetLimit > 0.0 ==> (v.barColour == Red <==> v.totalSpent > v.budgetLimit))
      && |v.barData| == HistoryDays
  {
    var rows := Fetched(s, user);
    CategoryTotalsAddUp(rows);
    HistoryShape(rows, today);
  }

  /** Signed out, every figure is zero, the pie is empty and all five bars
      are zero. */
  lemma HomeSignedOut(s: Store, today: Date)
    requires Valid(today)
    ensures var v := Home(s, None, today);
      && v.totalSpent == 0.0 && v.budgetLimit == 0.0 && v.remaining == 0.0
      && v.percentage == 0.0 && v.barWidth == 0.0 && v.barColour == Emerald
      && v.pieData == []
      && |v.barData| == HistoryDays
      && forall j :: 0 <= j < HistoryDays ==> v.barData[j].value == 0.0
  {
    HistoryShape([], today);
  }

  /** The dashboard of `u` depends on `u`'s own rows only. */
  lemma HomeOwnRowsOnly(s: Store, t: Store, u: UserId, today: Date)
    requires OwnedBy(s.expenses, u) == OwnedBy(t.expenses, u)
    requires OwnedBy(s.budgets, u) == OwnedBy(t.budgets, u)
    ensures Home(s, Some(u), today) == Home(t, Some(u), today)
  {
  }

  /** Nothing another user does changes what `u` sees. */
  lemma HomeUnaffectedByOthers(s: Store, u: UserId, other: UserId, now: Date, a: Action, today: Date)
    requires other != u
    ensures Home(Step(s, Some(other), now, a).store, Some(u), today) == Home(s, Some(u), today)
  {
    StepIsolatesOwners(s, other, now, a);
    HomeOwnRowsOnly(s, Step(s, Some(other), now, a).store, u, today);
  }

  /** After `setBudget`, the goal shown to the same user is the amount just set. */
  lemma SetBudgetShown(s: Store, u: UserId, amount: real, today: Date)
    ensures Home(SetBudget(s, Some(u), amount).store, Some(u), today).budgetLimit == amount
  {
  }

  /** After `addTransaction` on day `today`, the total and today's bar each
      grow by exactly the new amount. */
  lemma AddTransactionShown(s: Store, u: UserId, amount: real, description: string,
                            category: string, kind: string, today: Date)
    requires Valid(today)
    requires amount > 0.0
    ensures var before := Home(s, Some(u), today);
      var after := Home(AddTransaction(s, Some(u), Number(amount), description, category, kind, today).store,
                        Some(u), today);
      && after.totalSpent == before.totalSpent + amount
      && |before.barData| == |after.barData| == HistoryDays
      && after.barData[HistoryDays - 1].value == before.barData[HistoryDays - 1].value + amount
  {
    var t := AddTransaction(s, Some(u), Number(amount), description, category, kind, today).store;
    var row := Owned(s.nextId, u, ExpenseFields(amount, description, category, kind, today));
    var rows := OwnedBy(s.expenses, u);
    assert OwnedBy(t.expenses, u) == rows + [row];
    SumBySnoc(rows, row, ExpenseAmount);
    HistoryValue(rows, today, HistoryDays - 1);
    HistoryValue(rows + [row], today, HistoryDays - 1);
    SumByKeepSnoc(rows, row, (x: Expense) => LabelOf(x.fields.date) == WindowLabels(today)[HistoryDays - 1], ExpenseAmount);
  }
}
