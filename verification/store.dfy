/** The server actions of the finance app as transitions on an abstract record
    store. Four tables (expenses, subscriptions, budgets, categories) hold rows
    that each carry the id of the user who owns them. The caller's identity, as
    resolved by the authentication provider, is an `Option<UserId>`, and every
    action refuses an absent identity before touching the store. */
module RecordStore {
  import opened Common
  import opened Calendar

  /** The id the authentication provider reports. Both `if (!userId)` guards
      treat the empty string as signed out, so a signed-in id is never empty. */
  type UserId = u: string | u != "" witness "user"

  /** A row of any table: its database id, its owner, and the entity's fields. */
  datatype Owned<T> = Owned(id: nat, owner: UserId, fields: T)

  /** An expense (or income) entry. `kind` is the submitted `type` text, stored
      without validation. `date` is the local calendar day of the row's
      creation timestamp. */
  datatype ExpenseFields = ExpenseFields(
    amount: real, description: string, category: string, kind: string, date: Date)

  datatype SubscriptionFields = SubscriptionFields(name: string, amount: real, dueDay: int)

  datatype BudgetFields = BudgetFields(amount: real)

  datatype CategoryFields = CategoryFields(name: string, icon: string)

  type Expense = Owned<ExpenseFields>
  type Subscription = Owned<SubscriptionFields>
  type Budget = Owned<BudgetFields>
  type Category = Owned<CategoryFields>

  /** The database: one sequence per table, and the id the next created row
      receives. */
  datatype Store = Store(
    expenses: seq<Expense>,
    subscriptions: seq<Subscription>,
    budgets: seq<Budget>,
    categories: seq<Category>,
    nextId: nat)

  /** The result of `parseFloat` on a submitted field. */
  datatype Parsed = Number(value: real) | NaN

  /** The exceptions the actions throw. */
  datatype ActionError =
    | Unauthorized   // no signed-in user ('Unauthorized', or 'You must be logged in' in setBudget)
    | InvalidAmount  // 'Amount must be positive'

  /** The store after an action, and the error it threw, if any. */
  datatype Outcome = Outcome(store: Store, error: Option<ActionError>)

  /** The glyph the category actions fall back to when no icon is given
      (U+1F3F7 LABEL, U+FE0F variation selector). */
  const TagIcon: string := "\U{1F3F7}\U{FE0F}"

  // ---------------------------------------------------------------------
  // Ownership scaffolding shared by all four tables
  // ---------------------------------------------------------------------

  /** `findMany({ where: { userId: u } })`: the rows `u` owns, in table order. */
  function OwnedBy<T>(rows: seq<Owned<T>>, u: UserId): (r: seq<Owned<T>>)
    ensures forall i :: 0 <= i < |r| ==> r[i].owner == u
  {
    Keep(rows, (x: Owned<T>) => x.owner == u)
  }

  /** A row is listed for `u` iff it is in the table and `u` owns it. */
  lemma OwnedByMembership<T>(rows: seq<Owned<T>>, u: UserId, x: Owned<T>)
    ensures x in OwnedBy(rows, u) <==> x in rows && x.owner == u
  {
    KeepMembership(rows, (y: Owned<T>) => y.owner == u, x);
  }

  /** Whether a row is the target of a compound `(id, userId)` delete. */
  predicate Targeted<T>(x: Owned<T>, id: nat, u: UserId)
  {
    x.id == id && x.owner == u
  }

  /** `deleteMany({ where: { id, userId } })`: every row matching both is
      removed, every other row kept as often as it occurred. */
  function DeleteMatching<T(!new)>(rows: seq<Owned<T>>, id: nat, u: UserId): (r: seq<Owned<T>>)
    ensures forall x :: multiset(r)[x] == if Targeted(x, id, u) then 0 else multiset(rows)[x]
  {
    var r := Keep(rows, (x: Owned<T>) => !Targeted(x, id, u));
    assert forall x :: multiset(r)[x] == if Targeted(x, id, u) then 0 else multiset(rows)[x] by {
      forall x ensures multiset(r)[x] == if Targeted(x, id, u) then 0 else multiset(rows)[x] {
        KeepCount(rows, (y: Owned<T>) => !Targeted(y, id, u), x);
      }
    }
    r
  }

  /** `findFirst({ where: { userId: u } })`: the position of the first row `u`
      owns, or absent when `u` owns none. */
  function FirstOwnedIndex<T>(rows: seq<Owned<T>>, u: UserId): (r: Option<nat>)
    ensures r.Some? ==> r.value < |rows| && rows[r.value].owner == u
    ensures r.Some? ==> forall j :: 0 <= j < r.value ==> rows[j].owner != u
    ensures r.None? <==> forall j :: 0 <= j < |rows| ==> rows[j].owner != u
  {
    if |rows| == 0 then None
    else if rows[0].owner == u then Some(0)
    else
      match FirstOwnedIndex(rows[1..], u)
      case None => None
      case Some(i) => Some(i + 1)
  }

  /** A user owns no row exactly when `findFirst` finds nothing. */
  lemma OwnsNoneIffNotFound<T>(rows: seq<Owned<T>>, u: UserId)
    ensures |OwnedBy(rows, u)| == 0 <==> FirstOwnedIndex(rows, u).None?
  {
    match FirstOwnedIndex(rows, u)
    case Some(i) =>
      OwnedByMembership(rows, u, rows[i]);
    case None =>
      if |OwnedBy(rows, u)| > 0 {
        var x := OwnedBy(rows, u)[0];
        OwnedByMembership(rows, u, x);
      }
  }

  /** Every row's id is below `n`. */
  predicate IdsBelow<T>(rows: seq<Owned<T>>, n: nat)
  {
    forall i :: 0 <= i < |rows| ==> rows[i].id < n
  }

  /** Ids handed out so far are all below `nextId`, so the next row's id is
      fresh. */
  predicate FreshIds(s: Store)
  {
    && IdsBelow(s.expenses, s.nextId)
    && IdsBelow(s.subscriptions, s.nextId)
    && IdsBelow(s.budgets, s.nextId)
    && IdsBelow(s.categories, s.nextId)
  }

  /** No row of any user other than `u` differs between `s` and `t`. */
  ghost predicate ForeignRowsUnchanged(s: Store, t: Store, u: UserId)
  {
    forall v :: v != u ==>
      && OwnedBy(t.expenses, v) == OwnedBy(s.expenses, v)
      && OwnedBy(t.subscriptions, v) == OwnedBy(s.subscriptions, v)
      && OwnedBy(t.budgets, v) == OwnedBy(s.budgets, v)
      && OwnedBy(t.categories, v) == OwnedBy(s.categories, v)
  }

  /** Appending a row owned by `u` changes only `u`'s view of that table. */
  lemma AppendOwned<T>(rows: seq<Owned<T>>, x: Owned<T>)
    ensures OwnedBy(rows + [x], x.owner) == OwnedBy(rows, x.owner) + [x]
    ensures forall v :: v != x.owner ==> OwnedBy(rows + [x], v) == OwnedBy(rows, v)
  {
    forall v ensures OwnedBy(rows + [x], v) == OwnedBy(rows, v) + (if x.owner == v then [x] else []) {
      KeepSnoc(rows, x, (y: Owned<T>) => y.owner == v);
    }
  }

  /** Deleting for `u` changes only `u`'s view of that table. */
  lemma DeleteKeepsForeign<T(!new)>(rows: seq<Owned<T>>, id: nat, u: UserId)
    ensures forall v :: v != u ==> OwnedBy(DeleteMatching(rows, id, u), v) == OwnedBy(rows, v)
  {
    forall v | v != u ensures OwnedBy(DeleteMatching(rows, id, u), v) == OwnedBy(rows, v) {
      KeepAbsorb(rows, (x: Owned<T>) => !Targeted(x, id, u), (x: Owned<T>) => x.owner == v);
    }
  }

  /** A delete whose `(id, userId)` matches no row is a silent no-op. */
  lemma DeleteUnmatched<T(!new)>(rows: seq<Owned<T>>, id: nat, u: UserId)
    requires forall i :: 0 <= i < |rows| ==> !Targeted(rows[i], id, u)
    ensures DeleteMatching(rows, id, u) == rows
  {
    KeepAll(rows, (x: Owned<T>) => !Targeted(x, id, u));
  }

  /** A row appended with a fresh id is exactly what deleting that id undoes. */
  lemma DeleteFreshAppend<T(!new)>(rows: seq<Owned<T>>, x: Owned<T>)
    requires IdsBelow(rows, x.id)
    ensures DeleteMatching(rows + [x], x.id, x.owner) == rows
  {
    KeepSnoc(rows, x, (y: Owned<T>) => !Targeted(y, x.id, x.owner));
    DeleteUnmatched(rows, x.id, x.owner);
  }

  /** Overwriting the fields of `u`'s first row keeps it first, changes only
      the first of `u`'s rows and only in its fields, and leaves other owners'
      rows alone. */
  lemma UpdateFirstOwned<T>(rows: seq<Owned<T>>, u: UserId, fields: T)
    requires FirstOwnedIndex(rows, u).Some?
    ensures var i := FirstOwnedIndex(rows, u).value;
      var updated := rows[i := rows[i].(fields := fields)];
      && FirstOwnedIndex(updated, u) == Some(i)
      && |OwnedBy(rows, u)| > 0
      && OwnedBy(updated, u) == OwnedBy(rows, u)[0 := OwnedBy(rows, u)[0].(fields := fields)]
      && forall v :: v != u ==> OwnedBy(updated, v) == OwnedBy(rows, v)
  {
    var i := FirstOwnedIndex(rows, u).value;
    var updated := rows[i := rows[i].(fields := fields)];
    var owns := (x: Owned<T>) => x.owner == u;
    KeepUpdateAccepted(rows, i, updated[i], owns);
    if |Keep(rows[..i], owns)| > 0 {
      KeepMembership(rows[..i], owns, Keep(rows[..i], owns)[0]);
    }
    forall v | v != u ensures OwnedBy(updated, v) == OwnedBy(rows, v) {
      KeepUpdateRejected(rows, i, updated[i], (x: Owned<T>) => x.owner == v);
    }
    var f := FirstOwnedIndex(updated, u);
    assert f.Some? && f.value <= i;
  }

  /** A row appended for a user who owned none is that user's first row. */
  lemma {:induction false} AppendFirstOwned<T>(rows: seq<Owned<T>>, x: Owned<T>)
    requires FirstOwnedIndex(rows, x.owner).None?
    ensures FirstOwnedIndex(rows + [x], x.owner) == Some(|rows|)
    decreases |rows|
  {
    if |rows| > 0 {
      assert (rows + [x])[1..] == rows[1..] + [x];
      AppendFirstOwned(rows[1..], x);
    }
  }

  /** Deleting rows cannot introduce a large id. */
  lemma DeleteKeepsIdsBelow<T(!new)>(rows: seq<Owned<T>>, id: nat, u: UserId, n: nat)
    requires IdsBelow(rows, n)
    ensures IdsBelow(DeleteMatching(rows, id, u), n)
  {
    var r := DeleteMatching(rows, id, u);
    forall i | 0 <= i < |r| ensures r[i].id < n {
      assert multiset(r)[r[i]] > 0;
      assert r[i] in rows;
    }
  }

  // ---------------------------------------------------------------------
  // The amount guard of addTransaction
  // ---------------------------------------------------------------------

  /** The guard `if (amount <= 0) throw` as written: a JavaScript comparison
      with NaN is false, so NaN passes it. */
  predicate AmountPassesAsWritten(amount: Parsed)
  {
    !(amount.Number? && amount.value <= 0.0)
  }

  /** The guard as intended: only a positive number is accepted. */
  predicate AmountAccepted(amount: Parsed)
  {
    amount.Number? && amount.value > 0.0
  }

  /** The two guards agree on every number; they differ only on NaN, which the
      written guard lets through. */
  lemma AmountGuardDiscrepancy()
    ensures AmountPassesAsWritten(NaN) && !AmountAccepted(NaN)
    ensures forall a: real :: AmountPassesAsWritten(Number(a)) <==> AmountAccepted(Number(a))
  {
  }

  // ---------------------------------------------------------------------
  // The category icon default of addCategory
  // ---------------------------------------------------------------------

  /** The default icon literal as the source file spells it: the UTF-8 bytes
      of the tag glyph read back as Windows-1252 text, five characters
      "ð", "Ÿ", "·", "ï", "¸" (the bytes 0x8F, undefined there, are lost). */
  const DefaultIconAsWritten: string := "\U{F0}\U{178}\U{B7}\U{EF}\U{B8}"

  /** `formData.get('icon') as string || <literal>` as written. */
  function IconAsWritten(icon: Option<string>): string
  {
    if icon.None? || icon.value == "" then DefaultIconAsWritten else icon.value
  }

  /** What a category created without an icon shows is not the tag glyph that
      the transaction form falls back to. */
  lemma IconDefaultDiscrepancy()
    ensures IconAsWritten(None) != TagIcon
    ensures |IconAsWritten(None)| == 5 && |TagIcon| == 2
  {
  }

  /** `formData.get('icon') as string || '🏷️'` as intended: an absent or empty
      icon becomes the tag glyph, any other icon is kept. */
  function CategoryIcon(icon: Option<string>): (r: string)
    ensures r != ""
    ensures r == TagIcon <==> icon.None? || icon.value == "" || icon.value == TagIcon
    ensures icon.Some? && icon.value != "" ==> r == icon.value
  {
    if icon.None? || icon.value == "" then TagIcon else icon.value
  }

  // ---------------------------------------------------------------------
  // The seven actions
  // ---------------------------------------------------------------------

  /** `addTransaction`: append one expense row owned by the caller, after the
      amount guard. The row's date is the creation day `now`. */
  function AddTransaction(s: Store, caller: Option<UserId>, amount: Parsed,
                          description: string, category: string, kind: string, now: Date): (r: Outcome)
    ensures caller.None? ==> r == Outcome(s, Some(Unauthorized))
    ensures caller.Some? && !AmountAccepted(amount) ==> r == Outcome(s, Some(InvalidAmount))
    ensures r.error.None? <==> caller.Some? && AmountAccepted(amount)
    ensures r.error.None? ==>
      var u := caller.value;
      && OwnedBy(r.store.expenses, u) == OwnedBy(s.expenses, u)
           + [Owned(s.nextId, u, ExpenseFields(amount.value, description, category, kind, now))]
      && |r.store.expenses| == |s.expenses| + 1
      && ForeignRowsUnchanged(s, r.store, u)
      && r.store.(expenses := s.expenses, nextId := s.nextId) == s
      && r.store.nextId == s.nextId + 1
  {
    if caller.None? then Outcome(s, Some(Unauthorized))
    else if !AmountAccepted(amount) then Outcome(s, Some(InvalidAmount))
    else
      var row := Owned(s.nextId, caller.value,
                       ExpenseFields(amount.value, description, category, kind, now));
      AppendOwned(s.expenses, row);
      Outcome(s.(expenses := s.expenses + [row], nextId := s.nextId + 1), None)
  }

  /** `addSubscription`: append one subscription owned by the caller; neither
      the amount nor the due day is checked. */
  function AddSubscription(s: Store, caller: Option<UserId>,
                           name: string, amount: real, dueDay: int): (r: Outcome)
    ensures caller.None? ==> r == Outcome(s, Some(Unauthorized))
    ensures r.error.None? <==> caller.Some?
    ensures r.error.None? ==>
      var u := caller.value;
      && OwnedBy(r.store.subscriptions, u) == OwnedBy(s.subscriptions, u)
           + [Owned(s.nextId, u, SubscriptionFields(name, amount, dueDay))]
      && |r.store.subscriptions| == |s.subscriptions| + 1
      && ForeignRowsUnchanged(s, r.store, u)
      && r.store.(subscriptions := s.subscriptions, nextId := s.nextId) == s
      && r.store.nextId == s.nextId + 1
  {
    if caller.None? then Outcome(s, Some(Unauthorized))
    else
      var row := Owned(s.nextId, caller.value, SubscriptionFields(name, amount, dueDay));
      AppendOwned(s.subscriptions, row);
      Outcome(s.(subscriptions := s.subscriptions + [row], nextId := s.nextId + 1), None)
  }

  /** `deleteSubscription`: remove the caller's subscriptions with this id. */
  function DeleteSubscription(s: Store, caller: Option<UserId>, id: nat): (r: Outcome)
    ensures caller.None? ==> r == Outcome(s, Some(Unauthorized))
    ensures r.error.None? <==> caller.Some?
    ensures r.error.None? ==>
      && (forall x :: multiset(r.store.subscriptions)[x] ==
            if Targeted(x, id, caller.value) then 0 else multiset(s.subscriptions)[x])
      && ForeignRowsUnchanged(s, r.store, caller.value)
      && r.store.(subscriptions := s.subscriptions) == s
  {
    if caller.None? then Outcome(s, Some(Unauthorized))
    else
      DeleteKeepsForeign(s.subscriptions, id, caller.value);
      Outcome(s.(subscriptions := DeleteMatching(s.subscriptions, id, caller.value)), None)
  }

  /** `deleteExpense`: remove the caller's expenses with this id. */
  function DeleteExpense(s: Store, caller: Option<UserId>, id: nat): (r: Outcome)
    ensures caller.None? ==> r == Outcome(s, Some(Unauthorized))
    ensures r.error.None? <==> caller.Some?
    ensures r.error.None? ==>
      && (forall x :: multiset(r.store.expenses)[x] ==
            if Targeted(x, id, caller.value) then 0 else multiset(s.expenses)[x])
      && ForeignRowsUnchanged(s, r.store, caller.value)
      && r.store.(expenses := s.expenses) == s
  {
    if caller.None? then Outcome(s, Some(Unauthorized))
    else
      DeleteKeepsForeign(s.expenses, id, caller.value);
      Outcome(s.(expenses := DeleteMatching(s.expenses, id, caller.value)), None)
  }

  /** `deleteCategory`: remove the caller's categories with this id. */
  function DeleteCategory(s: Store, caller: Option<UserId>, id: nat): (r: Outcome)
    ensures caller.None? ==> r == Outcome(s, Some(Unauthorized))
    ensures r.error.None? <==> caller.Some?
    ensures r.error.None? ==>
      && (forall x :: multiset(r.store.categories)[x] ==
            if Targeted(x, id, caller.value) then 0 else multiset(s.categories)[x])
      && ForeignRowsUnchanged(s, r.store, caller.value)
      && r.store.(categories := s.categories) == s
  {
    if caller.None? then Outcome(s, Some(Unauthorized))
    else
      DeleteKeepsForeign(s.categories, id, caller.value);
      Outcome(s.(categories := DeleteMatching(s.categories, id, caller.value)), None)
  }

  /** `setBudget`: find the caller's first budget; overwrite its amount if
      there is one, otherwise create one. The amount is not checked. */
  function SetBudget(s: Store, caller: Option<UserId>, amount: real): (r: Outcome)
    ensures caller.None? ==> r == Outcome(s, Some(Unauthorized))
    ensures r.error.None? <==> caller.Some?
    ensures r.error.None? ==>
      var u := caller.value;
      var before := |OwnedBy(s.budgets, u)|;
      && |OwnedBy(r.store.budgets, u)| == (if before == 0 then 1 else before)
      && |r.store.budgets| == |s.budgets| + (if before == 0 then 1 else 0)
      && (before == 0 ==> OwnedBy(r.store.budgets, u) == [Owned(s.nextId, u, BudgetFields(amount))])
      && (before > 0 ==>
            && FirstOwnedIndex(r.store.budgets, u) == FirstOwnedIndex(s.budgets, u)
            && OwnedBy(r.store.budgets, u) ==
                 OwnedBy(s.budgets, u)[0 := OwnedBy(s.budgets, u)[0].(fields := BudgetFields(amount))])
      && (match FirstOwnedIndex(r.store.budgets, u)
          case Some(i) => r.store.budgets[i].fields.amount == amount
          case None => false)
      && ForeignRowsUnchanged(s, r.store, u)
      && r.store.(budgets := s.budgets, nextId := s.nextId) == s
      && r.store.nextId == s.nextId + (if before == 0 then 1 else 0)
  {
    if caller.None? then Outcome(s, Some(Unauthorized))
    else
      var u := caller.value;
      OwnsNoneIffNotFound(s.budgets, u);
      match FirstOwnedIndex(s.budgets, u)
      case Some(i) =>
        var budgets := s.budgets[i := s.budgets[i].(fields := BudgetFields(amount))];
        UpdateFirstOwned(s.budgets, u, BudgetFields(amount));
        Outcome(s.(budgets := budgets), None)
      case None =>
        var row := Owned(s.nextId, u, BudgetFields(amount));
        AppendOwned(s.budgets, row);
        AppendFirstOwned(s.budgets, row);
        Outcome(s.(budgets := s.budgets + [row], nextId := s.nextId + 1), None)
  }

  /** `addCategory`: append one category owned by the caller; the name is not
      checked against the caller's existing categories. */
  function AddCategory(s: Store, caller: Option<UserId>, name: string, icon: Option<string>): (r: Outcome)
    ensures caller.None? ==> r == Outcome(s, Some(Unauthorized))
    ensures r.error.None? <==> caller.Some?
    ensures r.error.None? ==>
      var u := caller.value;
      && OwnedBy(r.store.categories, u) == OwnedBy(s.categories, u)
           + [Owned(s.nextId, u, CategoryFields(name, CategoryIcon(icon)))]
      && |r.store.categories| == |s.categories| + 1
      && ForeignRowsUnchanged(s, r.store, u)
      && r.store.(categories := s.categories, nextId := s.nextId) == s
      && r.store.nextId == s.nextId + 1
  {
    if caller.None? then Outcome(s, Some(Unauthorized))
    else
      var row := Owned(s.nextId, caller.value, CategoryFields(name, CategoryIcon(icon)));
      AppendOwned(s.categories, row);
      Outcome(s.(categories := s.categories + [row], nextId := s.nextId + 1), None)
  }

  // ---------------------------------------------------------------------
  // The store as a state machine
  // ---------------------------------------------------------------------

  /** One submitted server action with its form fields. */
  datatype Action =
    | NewTransaction(amount: Parsed, description: string, category: string, kind: string)
    | NewSubscription(name: string, subAmount: real, dueDay: int)
    | RemoveSubscription(subscriptionId: nat)
    | RemoveExpense(expenseId: nat)
    | SaveBudget(budgetAmount: real)
    | NewCategory(categoryName: string, icon: Option<string>)
    | RemoveCategory(categoryId: nat)

  /** Run one action for `caller`; `now` is the day a created expense is dated.
      A signed-out call throws Unauthorized, a throwing call changes nothing,
      and no call changes another user's rows. */
  function Step(s: Store, caller: Option<UserId>, now: Date, a: Action): (r: Outcome)
    ensures caller.None? ==> r == Outcome(s, Some(Unauthorized))
    ensures r.error.Some? ==> r.store == s
    ensures caller.Some? ==> ForeignRowsUnchanged(s, r.store, caller.value)
  {
    match a
    case NewTransaction(amount, description, category, kind) =>
      AddTransaction(s, caller, amount, description, category, kind, now)
    case NewSubscription(name, amount, dueDay) => AddSubscription(s, caller, name, amount, dueDay)
    case RemoveSubscription(id) => DeleteSubscription(s, caller, id)
    case RemoveExpense(id) => DeleteExpense(s, caller, id)
    case SaveBudget(amount) => SetBudget(s, caller, amount)
    case NewCategory(name, icon) => AddCategory(s, caller, name, icon)
    case RemoveCategory(id) => DeleteCategory(s, caller, id)
  }

  /** Without a signed-in user every action throws and changes nothing. */
  lemma StepSignedOut(s: Store, now: Date, a: Action)
    ensures Step(s, None, now, a) == Outcome(s, Some(Unauthorized))
  {
  }

  /** No action of one user changes any row of another user. */
  lemma StepIsolatesOwners(s: Store, u: UserId, now: Date, a: Action)
    ensures ForeignRowsUnchanged(s, Step(s, Some(u), now, a).store, u)
  {
    var r := Step(s, Some(u), now, a);
    if r.error.Some? {
      assert r.store == s;
    }
  }

  /** Ids stay fresh across every action, starting from the empty store. */
  lemma StepKeepsIdsFresh(s: Store, caller: Option<UserId>, now: Date, a: Action)
    requires FreshIds(s)
    ensures FreshIds(Step(s, caller, now, a).store)
  {
    if caller.Some? {
      var u := caller.value;
      match a
      case RemoveSubscription(id) => DeleteKeepsIdsBelow(s.subscriptions, id, u, s.nextId);
      case RemoveExpense(id) => DeleteKeepsIdsBelow(s.expenses, id, u, s.nextId);
      case RemoveCategory(id) => DeleteKeepsIdsBelow(s.categories, id, u, s.nextId);
      case SaveBudget(amount) => SetBudgetKeepsIdsFresh(s, u, amount);
      case NewTransaction(amount, description, category, kind) =>
        if AmountAccepted(amount) {
          AppendKeepsIdsBelow(s.expenses, s.nextId,
            Owned(s.nextId, u, ExpenseFields(amount.value, description, category, kind, now)));
        }
      case NewSubscription(name, amount, dueDay) =>
        AppendKeepsIdsBelow(s.subscriptions, s.nextId,
          Owned(s.nextId, u, SubscriptionFields(name, amount, dueDay)));
      case NewCategory(name, icon) =>
        AppendKeepsIdsBelow(s.categories, s.nextId,
          Owned(s.nextId, u, CategoryFields(name, CategoryIcon(icon))));
    }
  }

  /** Appending a row with id `n` to rows with ids below `n`. */
  lemma AppendKeepsIdsBelow<T>(rows: seq<Owned<T>>, n: nat, x: Owned<T>)
    requires IdsBelow(rows, n)
    requires x.id == n
    ensures IdsBelow(rows + [x], n + 1)
  {
  }

  /** `setBudget` either rewrites a row in place or appends one with a fresh id. */
  lemma SetBudgetKeepsIdsFresh(s: Store, u: UserId, amount: real)
    requires FreshIds(s)
    ensures FreshIds(SetBudget(s, Some(u), amount).store)
  {
    match FirstOwnedIndex(s.budgets, u)
    case Some(i) =>
      var t := SetBudget(s, Some(u), amount).store;
      assert t.budgets == s.budgets[i := s.budgets[i].(fields := BudgetFields(amount))];
    case None =>
      AppendKeepsIdsBelow(s.budgets, s.nextId, Owned(s.nextId, u, BudgetFields(amount)));
  }

  /** Deleting the expense just added by the same caller restores the table. */
  lemma AddThenDeleteExpense(s: Store, u: UserId, amount: Parsed, description: string,
                             category: string, kind: string, now: Date)
    requires FreshIds(s)
    requires AmountAccepted(amount)
    ensures var added := AddTransaction(s, Some(u), amount, description, category, kind, now).store;
      DeleteExpense(added, Some(u), s.nextId).store.expenses == s.expenses
  {
    var row := Owned(s.nextId, u, ExpenseFields(amount.value, description, category, kind, now));
    DeleteFreshAppend(s.expenses, row);
  }

  /** Deleting the subscription just added by the same caller restores the table. */
  lemma AddThenDeleteSubscription(s: Store, u: UserId, name: string, amount: real, dueDay: int)
    requires FreshIds(s)
    ensures var added := AddSubscription(s, Some(u), name, amount, dueDay).store;
      DeleteSubscription(added, Some(u), s.nextId).store.subscriptions == s.subscriptions
  {
    DeleteFreshAppend(s.subscriptions, Owned(s.nextId, u, SubscriptionFields(name, amount, dueDay)));
  }

  /** Deleting the category just added by the same caller restores the table. */
  lemma AddThenDeleteCategory(s: Store, u: UserId, name: string, icon: Option<string>)
    requires FreshIds(s)
    ensures var added := AddCategory(s, Some(u), name, icon).store;
      DeleteCategory(added, Some(u), s.nextId).store.categories == s.categories
  {
    DeleteFreshAppend(s.categories, Owned(s.nextId, u, CategoryFields(name, CategoryIcon(icon))));
  }

  /** Another user's id is never deleted: the call succeeds and changes nothing. */
  lemma DeleteForeignExpenseIsNoOp(s: Store, u: UserId, id: nat)
    requires forall i :: 0 <= i < |s.expenses| && s.expenses[i].id == id ==> s.expenses[i].owner != u
    ensures DeleteExpense(s, Some(u), id) == Outcome(s, None)
  {
    DeleteUnmatched(s.expenses, id, u);
  }

  /** Setting the same budget twice is the same as setting it once. */
  lemma SetBudgetIdempotent(s: Store, u: UserId, amount: real)
    ensures var once := SetBudget(s, Some(u), amount).store;
      SetBudget(once, Some(u), amount).store == once
  {
    var once := SetBudget(s, Some(u), amount).store;
    var i := FirstOwnedIndex(once.budgets, u).value;
    assert once.budgets[i := once.budgets[i].(fields := BudgetFields(amount))] == once.budgets;
  }
}
