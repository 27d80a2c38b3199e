/** The new-transaction form (components/TransactionForm.tsx): its four pieces
    of view state, the category list it offers, the icon it shows for the
    selection, and the hidden fields it submits to `addTransaction`. */
module TransactionForm {
  import opened Common
  import opened Calendar
  import opened RecordStore

  /** The `type` toggle. */
  datatype Kind = Expense | Income

  /** The value of the hidden `type` input. */
  function KindName(k: Kind): string
  {
    match k
    case Expense => "EXPENSE"
    case Income => "INCOME"
  }

  /** A category as the form receives it: the id, the name and the optional
      icon. */
  datatype Choice = Choice(id: int, name: string, icon: Option<string>)

  /** `type`, `selectedCategory`, `isCategoryOpen` and `isSubmitting`. */
  datatype Form = Form(kind: Kind, selected: string, open: bool, submitting: bool)

  /** The state on first render: an expense, nothing selected, the dropdown
      closed, not submitting. */
  const Initial := Form(Expense, "", false, false)

  // ---------------------------------------------------------------------
  // The offered categories
  // ---------------------------------------------------------------------

  /** The five built-in categories, with negative ids so that they can never
      clash with a stored row's id. */
  const DefaultCategories: seq<Choice> := [
    Choice(-1, "Food", Some("\U{1F354}")),
    Choice(-2, "Transport", Some("\U{1F695}")),
    Choice(-3, "Bills", Some("\U{1F4A1}")),
    Choice(-4, "Shopping", Some("\U{1F6CD}\U{FE0F}")),
    Choice(-5, "Entertainment", Some("\U{1F3AC}"))
  ]

  /** `displayCategories`: the user's own list, or the built-ins when the
      user has none. */
  function DisplayCategories(categories: seq<Choice>): (r: seq<Choice>)
    ensures |categories| > 0 ==> r == categories
    ensures |categories| == 0 ==> |r| == 5 && forall i :: 0 <= i < |r| ==> r[i].id < 0
  {
    if |categories| > 0 then categories else DefaultCategories
  }

  /** The "Using default categories" hint. */
  predicate ShowsDefaultsHint(categories: seq<Choice>)
  {
    |categories| == 0
  }

  /** The categories the store hands to the form carry their row ids, which
      are never negative. */
  predicate StoredIds(categories: seq<Choice>)
  {
    forall i :: 0 <= i < |categories| ==> categories[i].id >= 0
  }

  /** With stored categories, the hint is shown exactly when the list on
      offer contains a built-in. */
  lemma DefaultsHintIffBuiltIns(categories: seq<Choice>)
    requires StoredIds(categories)
    ensures ShowsDefaultsHint(categories) <==>
      exists i :: 0 <= i < |DisplayCategories(categories)| && DisplayCategories(categories)[i].id < 0
  {
    if ShowsDefaultsHint(categories) {
      assert DisplayCategories(categories)[0].id < 0;
    }
  }

  /** The names on offer, in order. */
  function Names(cs: seq<Choice>): (r: seq<string>)
    ensures |r| == |cs|
    ensures forall i :: 0 <= i < |cs| ==> r[i] == cs[i].name
  {
    if |cs| == 0 then [] else [cs[0].name] + Names(cs[1..])
  }

  /** `find(c => c.name === name)`: the position of the first category with
      this name. */
  function FindByName(cs: seq<Choice>, name: string): (r: Option<nat>)
    ensures r.Some? ==> r.value < |cs| && cs[r.value].name == name
    ensures r.Some? ==> forall j :: 0 <= j < r.value ==> cs[j].name != name
    ensures r.None? ==> forall j :: 0 <= j < |cs| ==> cs[j].name != name
  {
    if |cs| == 0 then None
    else if cs[0].name == name then Some(0)
    else
      match FindByName(cs[1..], name)
      case None => None
      case Some(i) => Some(i + 1)
  }

  /** `getCategoryIcon(name)`: the icon of the first offered category with
      that name, the tag glyph when it has none or none is found. The icon
      rule is the one `addCategory` stores (`icon || '🏷️'`). */
  function IconFor(categories: seq<Choice>, name: string): (r: string)
    ensures r != ""
    ensures (forall j :: 0 <= j < |DisplayCategories(categories)| ==>
               DisplayCategories(categories)[j].name != name) ==> r == TagIcon
  {
    var cs := DisplayCategories(categories);
    match FindByName(cs, name)
    case None => TagIcon
    case Some(i) => CategoryIcon(cs[i].icon)
  }

  /** The icon shown is the first same-named category's own icon whenever it
      has one; later categories of that name are never consulted. */
  lemma IconForFirstMatch(categories: seq<Choice>, name: string, i: nat)
    requires i < |DisplayCategories(categories)|
    requires DisplayCategories(categories)[i].name == name
    requires forall j :: 0 <= j < i ==> DisplayCategories(categories)[j].name != name
    ensures IconFor(categories, name) == CategoryIcon(DisplayCategories(categories)[i].icon)
  {
    var cs := DisplayCategories(categories);
    assert FindByName(cs, name) == Some(i);
  }

  /** A category the store created by `addCategory` with icon field `icon`
      shows in the form with the icon the store gave it. */
  lemma StoredIconShown(categories: seq<Choice>, name: string, i: nat, icon: Option<string>)
    requires i < |categories|
    requires categories[i] == Choice(categories[i].id, name, Some(CategoryIcon(icon)))
    requires forall j :: 0 <= j < i ==> categories[j].name != name
    ensures IconFor(categories, name) == CategoryIcon(icon)
  {
    IconForFirstMatch(categories, name, i);
  }

  // ---------------------------------------------------------------------
  // Events
  // ---------------------------------------------------------------------

  /** What the user and the action can do to the form. */
  datatype Event =
    | PickExpense          // the "Expense" half of the type toggle
    | PickIncome           // the "Income" half
    | ToggleDropdown       // the category trigger button
    | Choose(name: string) // a row of the open dropdown
    | ClickOutside         // a mousedown outside the dropdown
    | SubmitStart          // the form's action begins
    | SubmitDone           // `addAction` resolved
    | SubmitFailed         // `addAction` threw

  /** Whether the submit button can be pressed. */
  predicate SubmitEnabled(f: Form)
  {
    !f.submitting
  }

  /** One event. A press of the disabled submit button does nothing; a failed
      `addAction` skips the reset, so the form stays in its submitting state. */
  function Apply(f: Form, e: Event): (r: Form)
    ensures e.PickExpense? ==> r == f.(kind := Expense)
    ensures e.PickIncome? ==> r == f.(kind := Income)
    ensures e.ToggleDropdown? ==> r.open == !f.open && r.(open := f.open) == f
    ensures e.Choose? ==> r.selected == e.name && !r.open && r.kind == f.kind && r.submitting == f.submitting
    ensures e.ClickOutside? ==> r == f.(open := false)
    ensures e.SubmitStart? ==> r.submitting && !SubmitEnabled(r) && r.(submitting := f.submitting) == f
    ensures e.SubmitDone? ==> r.kind == Expense && r.selected == "" && SubmitEnabled(r) && r.open == f.open
    ensures e.SubmitFailed? ==> r == f
  {
    match e
    case PickExpense => f.(kind := Expense)
    case PickIncome => f.(kind := Income)
    case ToggleDropdown => f.(open := !f.open)
    case Choose(name) => f.(selected := name, open := false)
    case ClickOutside => f.(open := false)
    case SubmitStart => if SubmitEnabled(f) then f.(submitting := true) else f
    case SubmitDone => f.(kind := Expense, selected := "", submitting := false)
    case SubmitFailed => f
  }

  /** The trigger button twice leaves the form as it was. */
  lemma ToggleTwice(f: Form)
    ensures Apply(Apply(f, ToggleDropdown), ToggleDropdown) == f
  {
  }

  /** A completed submission brings the form back to its initial state, except
      for the dropdown, which it does not touch. */
  lemma SubmitResets(f: Form)
    ensures Apply(Apply(f, SubmitStart), SubmitDone) == Initial.(open := f.open)
  {
  }

  /** After a failed submission no event but a completed one re-enables the
      submit button. */
  lemma FailureKeepsDisabled(f: Form, e: Event)
    requires f.submitting
    requires !e.SubmitDone?
    ensures !SubmitEnabled(Apply(f, e))
  {
  }

  /** The events in order. */
  function Run(f: Form, es: seq<Event>): Form
    decreases |es|
  {
    if |es| == 0 then f else Run(Apply(f, es[0]), es[1..])
  }

  /** Every `Choose` names a category in `offered`, as the dropdown rows do. */
  predicate ChoosesOffered(es: seq<Event>, offered: seq<string>)
  {
    forall i :: 0 <= i < |es| && es[i].Choose? ==> es[i].name in offered
  }

  /** The selection is empty or one of the names in `offered`. */
  predicate SelectionOffered(f: Form, offered: seq<string>)
  {
    f.selected == "" || f.selected in offered
  }

  /** Whatever the user does through the dropdown, the selection is never a
      name the dropdown did not offer; in particular from the initial state,
      with `offered` the names of `DisplayCategories`. */
  lemma {:induction false} SelectionAlwaysOffered(f: Form, es: seq<Event>, offered: seq<string>)
    requires SelectionOffered(f, offered)
    requires ChoosesOffered(es, offered)
    ensures SelectionOffered(Run(f, es), offered)
    decreases |es|
  {
    if |es| > 0 {
      assert es[0].Choose? ==> es[0].name in offered;
      assert ChoosesOffered(es[1..], offered) by {
        forall i | 0 <= i < |es| - 1 && es[1..][i].Choose?
          ensures es[1..][i].name in offered
        {
          assert es[1..][i] == es[i + 1];
        }
      }
      SelectionAlwaysOffered(Apply(f, es[0]), es[1..], offered);
    }
  }

  /** From the initial state, the selection is always empty or the name of a
      category on offer. */
  lemma SelectionFromInitial(categories: seq<Choice>, es: seq<Event>)
    requires ChoosesOffered(es, Names(DisplayCategories(categories)))
    ensures
      var f := Run(Initial, es);
      f.selected == "" || exists i :: 0 <= i < |DisplayCategories(categories)| && DisplayCategories(categories)[i].name == f.selected
  {
    var offered := Names(DisplayCategories(categories));
    SelectionAlwaysOffered(Initial, es, offered);
    var f := Run(Initial, es);
    if f.selected != "" {
      var i :| 0 <= i < |offered| && offered[i] == f.selected;
      assert DisplayCategories(categories)[i].name == f.selected;
    }
  }

  // ---------------------------------------------------------------------
  // Submission
  // ---------------------------------------------------------------------

  /** The two hidden inputs: `type` and `category`. */
  datatype Submitted = Submitted(kind: string, category: string)

  /** An income is always filed under "Income", whatever is selected; an
      expense under the selected category, which may still be empty. */
  function HiddenFields(f: Form): (r: Submitted)
    ensures r.kind == "INCOME" <==> f.kind == Income
    ensures f.kind == Expense ==> r.kind == "EXPENSE"
    ensures f.kind == Income ==> r.category == "Income"
    ensures f.kind == Expense ==> r.category == f.selected
  {
    Submitted(KindName(f.kind), if f.kind == Income then "Income" else f.selected)
  }

  /** Choosing a category and submitting an expense files it under that
      category; switching to income overrides the choice. */
  lemma ChooseThenSubmit(f: Form, name: string)
    ensures HiddenFields(Apply(Apply(f, PickExpense), Choose(name))) == Submitted("EXPENSE", name)
    ensures HiddenFields(Apply(Apply(f, Choose(name)), PickIncome)) == Submitted("INCOME", "Income")
  {
  }

  /** The expense row `addTransaction` creates from the submitted form carries
      the hidden fields: its category and its type are the form's. */
  lemma SubmissionRecorded(s: Store, u: UserId, f: Form, amount: real, description: string, now: Date)
    requires amount > 0.0
    ensures
      var h := HiddenFields(f);
      var r := AddTransaction(s, Some(u), Number(amount), description, h.category, h.kind, now);
      && r.error.None?
      && r.store.expenses[|r.store.expenses| - 1].fields ==
           ExpenseFields(amount, description, if f.kind == Income then "Income" else f.selected,
                         KindName(f.kind), now)
  {
  }
}
