# pesowise — a Dafny model of the dashboard, the server actions and the small component rules

pesowise is a personal-finance web app. A signed-in user records expenses (and
incomes), subscriptions, a monthly budget and their own categories. The home page
shows the following, computed from those records:

- the total spent and the budget remaining;
- a progress bar;
- a category pie chart;
- a five-day history bar chart.

This project models the parts of the app that compute something, as pure Dafny
functions over immutable datatypes, and proves what the app promises about them.

- `common.dfy` (`Common`): `Option`, plus the order-preserving `filter` (`Keep`) and
  the left-to-right `reduce` (`SumBy`) that everything else is built from. It also
  holds their algebra: concatenation, permutation, filtering and bounds.
- `calendar.dfy` (`Calendar`): calendar days in the server's local time and the day arithmetic of
  `setDate(getDate() - i)`. It also has the year-less "Jan 28" label that
  `toLocaleDateString('en-US', { month: 'short', day: 'numeric' })` renders.
- `ordered_map.dfy` (`OrderedMap`): a JavaScript `Map` as an insertion-ordered list
  of entries. `set` on a present key overwrites in place, and `set` on a new key
  appends.
- `store.dfy` (`RecordStore`): the seven server actions of `app/actions.ts` as
  transitions on a store. The store has four tables of owner-tagged rows and a
  fresh-id counter. The caller is an `Option<UserId>`, and failures are returned as
  an `ActionError` rather than thrown.
- `dashboard.dfy` (`Dashboard`): the aggregation in `Home` (`app/page.tsx`):
  - total, remaining and percentage;
  - bar width and colour;
  - the category breakdown in first-seen order;
  - the zero-seeded five-day history.
- `quick_stats.dfy` (`QuickStats`): the trend flag, the insight chain, the signed
  change display and the top-category visibility.
- `transaction_form.dfy` (`TransactionForm`): the form's state machine, the
  built-in category fallback, the icon lookup and the submitted hidden fields.
- `dark_mode.dfy` (`DarkModeToggle`): theme resolution on mount, and the toggle.
- `subscription_card.dfy` (`SubscriptionCard`): the monthly total and the empty
  state.

Authentication (`auth()`), the database (Prisma) and the clock are parameters of
the model:

- The caller is an `Option<UserId>`. A `UserId` is never empty: `if (!userId)` treats an empty id as signed out, so it is `None` here.
- The database is the `Store` value.
- "Today" is a `Date` argument.
- A created expense is dated with the `now` argument of `AddTransaction`.

The browser's `localStorage` and `matchMedia` are fields and arguments of the
theme state.

Where the code and the app's documented design differ, the model follows the code:

- The page imports `addExpense` (app/page.tsx:2), but `app/actions.ts` only exports
  `addTransaction`. The model treats `addTransaction` as the expense action.
- The income/expense `type` is stored as unvalidated text. The dashboard adds every
  row, incomes included, into "total spent", and so does the model.

## Model

| member | source | states |
|---|---|---|
| `Calendar.LabelIgnoresYear` | app/page.tsx:57 | The rendered label forgets the year: the same month and day of any year gets the same label. |
| `Calendar.SameLabel` | app/page.tsx:57 | Two days share a label exactly when they share month and day; within one year, exactly when they are the same day. |
| `Calendar.Prev` | app/page.tsx:55-56 | Stepping one day back stays on the calendar, and the following day of the result is the original day. |
| `Calendar.PrevNext` | app/page.tsx:55-56 | Stepping forward and then back returns the original day, so the day steps are inverse bijections. |
| `Calendar.Back` | app/page.tsx:54-56 | `n` days before a valid day is a valid day. |
| `Calendar.ForwardBack` | app/page.tsx:54-56 | Walking forward `m` days from `n` days back lands `n - m` days back. |
| `Calendar.ShortDrift` | app/page.tsx:54-57 | Within four days, either the month is kept and the day number grows by exactly the offset, or the month changes and the day number is at most the offset. |
| `Calendar.LabelNoRepeatWithin` | app/page.tsx:54-57 | A month/day label does not recur within four days. |
| `Calendar.WindowLabelsDistinct` | app/page.tsx:54-59 | Any two of the five days ending today have different labels, so seeding never collapses two days into one entry. |
| `OrderedMap.Put` | app/page.tsx:58 | `map.set` on a present key overwrites that entry in place. On an absent key it appends one entry. Entries under other keys are untouched. |
| `OrderedMap.PutKeys` | app/page.tsx:58 | `set` keeps every key where it was and appends a new key at the end. |
| `OrderedMap.PutGetSame` | app/page.tsx:58 | After `set(k, v)`, `get(k)` yields `v`. |
| `OrderedMap.PutGetOther` | app/page.tsx:58 | After `set(k, v)`, every other key reads as before. |
| `OrderedMap.AddAt` | app/page.tsx:45-46 | Adding under a key keeps the length when the key is present and adds one entry when it is absent. |
| `OrderedMap.AddAtIsPut` | app/page.tsx:45-46 | Adding `a` under `k` is `set(k, v)` where `v` is the number `get(k)` reads, or 0 when absent, plus `a`. |
| `OrderedMap.AddAtGet` | app/page.tsx:45-46 | After adding `a` under `k`, the number under `k` has grown by `a` and every other key reads as before. |
| `OrderedMap.AddAtEntry` | app/page.tsx:64-65 | Entry by entry, only the entry for `k` changes, and it grows by `a`. |
| `OrderedMap.AddAtHas` | app/page.tsx:45-46 | After adding under `k`, the map holds `k` and every key it held before, and nothing else. |
| `OrderedMap.AddAtSum` | app/page.tsx:45-46 | Adding `a` under any key raises the sum of all values by exactly `a`. |
| `RecordStore.OwnedBy` | app/page.tsx:22-25 | The rows listed for a user are all that user's. |
| `RecordStore.OwnedByMembership` | app/page.tsx:22-25 | A row is listed for `u` iff it is in the table and owned by `u`. |
| `RecordStore.DeleteMatching` | app/actions.ts:64-69 | `deleteMany({ id, userId })` removes every copy of each row matching both id and owner and keeps every other row as often as it occurred. |
| `RecordStore.FirstOwnedIndex` | app/actions.ts:81-83 | `findFirst` returns the first row the user owns, and returns nothing exactly when the user owns no row. |
| `RecordStore.OwnsNoneIffNotFound` | app/actions.ts:81-85 | A user owns no budget exactly when `findFirst` finds nothing. |
| `RecordStore.DeleteKeepsForeign` | app/actions.ts:64-69 | A compound delete for `u` leaves every other user's rows as they were. |
| `RecordStore.DeleteUnmatched` | app/actions.ts:64-69 | A delete whose id and owner match no row is a silent no-op. |
| `RecordStore.UpdateFirstOwned` | app/actions.ts:85-89 | Overwriting the user's first budget keeps it first in the table. Among the user's rows only that first one changes, and only in its fields; its id and owner stay. Other users' rows are untouched. |
| `RecordStore.AppendFirstOwned` | app/actions.ts:90-93 | A budget created for a user who had none becomes that user's first budget. |
| `RecordStore.AmountGuardDiscrepancy` | app/actions.ts:19 | The guard as written lets NaN through while the intended guard rejects it; on every number the two agree. |
| `RecordStore.IconDefaultDiscrepancy` | app/actions.ts:104 | The default icon as written is a five-character mis-decoded string, not the two-character tag glyph. |
| `RecordStore.CategoryIcon` | app/actions.ts:104 | An absent or empty icon becomes the tag glyph, and any other icon is kept. The result is never empty. |
| `RecordStore.AddTransaction` | app/actions.ts:10-29 | Signed out, it throws Unauthorized and changes nothing. A NaN or non-positive amount throws InvalidAmount and creates nothing. Otherwise exactly one row owned by the caller is appended, carrying the given amount, description, category and unchecked type. Nothing else changes. The id counter advances by one. |
| `RecordStore.AddSubscription` | app/actions.ts:35-45 | A signed-in caller always gets exactly one new subscription, with amount and due day unchecked. Every other row is unchanged. The id counter advances by one. |
| `RecordStore.DeleteSubscription` | app/actions.ts:51-55 | Exactly the caller's subscriptions with that id are removed, and all other rows are unchanged. |
| `RecordStore.DeleteExpense` | app/actions.ts:59-69 | Exactly the caller's expenses with that id are removed, and other owners' rows and other ids are unchanged. |
| `RecordStore.DeleteCategory` | app/actions.ts:113-119 | Exactly the caller's categories with that id are removed, and all other rows are unchanged. |
| `RecordStore.SetBudget` | app/actions.ts:74-94 | A caller with no budget gets exactly one, with a fresh id and the amount. Otherwise the caller's first budget keeps its id and place and takes the amount, and the caller's other budgets are unchanged. Other users' rows and the other tables are untouched. The id counter advances only when a budget is created. |
| `RecordStore.AddCategory` | app/actions.ts:99-108 | Exactly one category owned by the caller is appended, with the default icon when the field is empty or absent. There is no duplicate-name check. The id counter advances by one. |
| `RecordStore.Step` | app/actions.ts:10-119 | Any of the seven actions: a signed-out call throws Unauthorized, a throwing call leaves the store unchanged, and no call changes another user's rows. |
| `RecordStore.StepSignedOut` | app/actions.ts:11-12 | Without a user, every one of the seven actions throws and leaves the store unchanged. |
| `RecordStore.StepIsolatesOwners` | app/actions.ts:10-122 | No action of one user changes any row of another user. |
| `RecordStore.StepKeepsIdsFresh` | app/actions.ts:10-122 | Every action keeps every id below the next id to be handed out. |
| `RecordStore.AddThenDeleteExpense` | app/actions.ts:59-69 | Deleting the expense just added restores the expense table. |
| `RecordStore.AddThenDeleteSubscription` | app/actions.ts:51-55 | Deleting the subscription just added restores the subscription table. |
| `RecordStore.AddThenDeleteCategory` | app/actions.ts:113-119 | Deleting the category just added restores the category table. |
| `RecordStore.DeleteForeignExpenseIsNoOp` | app/actions.ts:63-69 | Deleting an id the caller does not own succeeds and changes nothing. |
| `RecordStore.SetBudgetIdempotent` | app/actions.ts:74-94 | Setting the same budget twice is the same as setting it once. |
| `Dashboard.TotalSpentOrderIndependent` | app/page.tsx:38 | The total does not depend on the order the rows were fetched in. |
| `Dashboard.TotalSpentAppend` | app/page.tsx:38 | One more row adds exactly its amount to the total. |
| `Dashboard.BudgetLimit` | app/page.tsx:27-30 | The limit is 0 when signed out or with no budget row. Otherwise it is the amount of the user's first budget row. |
| `Dashboard.FirstOwnedIsFirstOfOwned` | app/page.tsx:27-30 | The row `findFirst` returns is the first of the user's rows. |
| `Dashboard.Percentage` | app/page.tsx:40 | With a limit of 0 or less the percentage is 0, so there is no division. Otherwise percentage × limit = spent × 100: over 100 iff spent exceeds the limit, and over 75 iff spent exceeds three quarters of it. It is non-negative for a non-negative total. |
| `Dashboard.BarWidth` | app/page.tsx:128 | The width is the percentage capped at 100, so the bar never overflows. |
| `Dashboard.BarColour` | app/page.tsx:127 | Red iff over 100, orange iff in (75, 100], emerald iff at most 75; the bands are exclusive and exhaustive. |
| `Dashboard.CategoriesOf` | app/page.tsx:44 | The categories of the rows, in row order. |
| `Dashboard.CategorySumLast` | app/page.tsx:44-47 | A row adds its amount to its own category's sum and to no other. |
| `Dashboard.CategorySumAbsent` | app/page.tsx:44-47 | A category no row carries sums to 0. |
| `Dashboard.CategoryTotals` | app/page.tsx:43-47 | The category map never holds a category twice. |
| `Dashboard.CategoryTotalsKeys` | app/page.tsx:43-48 | The pie has an entry for a category iff some row carries it. |
| `Dashboard.CategoryTotalsSum` | app/page.tsx:43-48 | The pie's number for a category is the sum of that category's rows. |
| `Dashboard.CategoryTotalsEntries` | app/page.tsx:48 | Each pie entry's amount is its category's sum. |
| `Dashboard.CategoryTotalsAddUp` | app/page.tsx:38-48 | The pie entries add up to the total spent, so no row is lost or counted twice. |
| `Dashboard.AddAtFirstSeenOrder` | app/page.tsx:44-47 | One fold step keeps the keys in the order they were first met. |
| `Dashboard.CategoryTotalsFirstSeenOrder` | app/page.tsx:43-48 | Categories appear in the pie in the order of their first occurrence among the rows. |
| `Dashboard.WindowConsecutive` | app/page.tsx:54-57 | The window is five consecutive days: it starts four days back, each label is that of the day after the previous one, and the last is today's. |
| `Dashboard.WindowDistinct` | app/page.tsx:54-59 | The window's five labels are pairwise different. |
| `Dashboard.SeedShape` | app/page.tsx:54-59 | Seeding distinct labels yields one zero entry per label, in order. |
| `Dashboard.SeedKeys` | app/page.tsx:54-59 | The seeded map's keys are exactly the labels, each once, with value 0. |
| `Dashboard.BumpKeys` | app/page.tsx:62-67 | Folding in a row never adds or moves a key. |
| `Dashboard.BumpValue` | app/page.tsx:62-67 | A row adds its amount to the entry carrying its label and to no other entry. |
| `Dashboard.BumpSum` | app/page.tsx:62-67 | A row raises the sum of the bars by its amount iff some bar carries its label; otherwise it is dropped. |
| `Dashboard.HistoryKeys` | app/page.tsx:51-67 | Whatever the rows, the bar keys stay the window's five labels, oldest first, each once. |
| `Dashboard.HistoryValue` | app/page.tsx:51-69 | The bar for each day holds the amount of exactly the rows carrying that day's label. |
| `Dashboard.HistoryShape` | app/page.tsx:51-69 | `barData` always has exactly five entries, for the five days ending today in ascending order, each the sum of that day's rows. |
| `Dashboard.HistoryAddsUp` | app/page.tsx:51-69 | The bars add up to the amount of the rows whose label is in the window; other rows are dropped. |
| `Dashboard.HistoryAtMostTotal` | app/page.tsx:38-69 | With non-negative amounts the bars never add up to more than the total spent. |
| `Dashboard.PriorYearCollision` | app/page.tsx:57-65 | A row dated today's month and day one year earlier is none of the five days, yet it is counted in today's bar. |
| `Dashboard.Home` | app/page.tsx:13-69 | The whole page computation: the pie adds up to the total, the remaining amount is the limit minus the total, the bar width never passes 100 and equals the percentage below it, and a signed-out visitor sees nothing spent, no budget and an empty pie. A signed-in user's total is the sum of their own expense rows, and each category's slice is that category's independent sum. |
| `Dashboard.FetchOrderIrrelevant` | app/page.tsx:22-26 | Reordering the fetched rows changes only the order of the pie's slices. The total, the categories, each category's amount and all five history bars stay the same. |
| `Dashboard.HomeConsistent` | app/page.tsx:37-69 | The pie adds up to the total. Remaining plus spent equals the limit, with no clamping. The bar is at most 100 and red iff spent exceeds a positive limit. There are five bars. |
| `Dashboard.HomeSignedOut` | app/page.tsx:17-21 | Signed out, every figure is 0, the pie is empty, the bar is emerald and all five bars are 0. |
| `Dashboard.HomeOwnRowsOnly` | app/page.tsx:21-30 | The dashboard of `u` depends only on `u`'s own expense and budget rows. |
| `Dashboard.HomeUnaffectedByOthers` | app/page.tsx:21-30 | Nothing another user does changes what `u` sees. |
| `Dashboard.SetBudgetShown` | app/page.tsx:27-30 | After `setBudget`, the goal shown to the same user is the amount just set. |
| `Dashboard.AddTransactionShown` | app/page.tsx:38-67 | After `addTransaction` today, the total and today's bar each grow by exactly the new amount. |
| `QuickStats.InsightFor` | components/QuickStats.tsx:62-68 | Exactly one of four messages: review the budget iff over 10, slight increase iff in (0, 10], great job iff below -10, stable iff in [-10, 0]. |
| `QuickStats.InsightMonotone` | components/QuickStats.tsx:62-68 | Spending more never yields a milder message. |
| `QuickStats.InsightBoundaries` | components/QuickStats.tsx:12 | Exactly 10 is a slight increase, exactly -10 is stable, and 0 is stable and not an increase. |
| `QuickStats.ShowChange` | components/QuickStats.tsx:54 | The `+` prefix is shown iff the change is an increase. The magnitude is the absolute value, never negative. |
| `QuickStats.ShowChangeRoundTrip` | components/QuickStats.tsx:54 | The sign and magnitude shown determine the change exactly. |
| `QuickStats.Render` | components/QuickStats.tsx:11-68 | The top-category block is shown iff a top category is given. The red up-arrow is shown iff the change is positive, and so is the `+` sign. The increase messages appear exactly when the arrow points up. |
| `TransactionForm.DisplayCategories` | components/TransactionForm.tsx:28-36 | The user's list when it is non-empty; otherwise the five built-ins, all with negative ids. |
| `TransactionForm.DefaultsHintIffBuiltIns` | components/TransactionForm.tsx:171 | With stored categories, the defaults hint is shown iff a built-in category is on offer. |
| `TransactionForm.Names` | components/TransactionForm.tsx:152-156 | The names the dropdown lists, one per offered category, in order. |
| `TransactionForm.FindByName` | components/TransactionForm.tsx:58 | `find` returns the first category with the name, and nothing iff none has it. |
| `TransactionForm.IconFor` | components/TransactionForm.tsx:57-60 | The icon is never empty, and it is the tag glyph when no offered category has the name. |
| `TransactionForm.IconForFirstMatch` | components/TransactionForm.tsx:57-60 | The icon is that of the first same-named category, defaulting to the tag glyph when it has none; later namesakes are ignored. |
| `TransactionForm.StoredIconShown` | components/TransactionForm.tsx:57-60 | A category created by `addCategory` shows with the icon the store gave it. |
| `TransactionForm.Apply` | components/TransactionForm.tsx:40-55 | The type buttons set the type. The trigger flips the dropdown, choosing selects and closes, and a click outside closes. Submitting disables the button. A completed submit resets the type to expense, clears the selection and re-enables. A failed one changes nothing. |
| `TransactionForm.ToggleTwice` | components/TransactionForm.tsx:134 | Pressing the dropdown trigger twice restores the form. |
| `TransactionForm.SubmitResets` | components/TransactionForm.tsx:19-22 | A completed submission brings the form back to its initial state except for the dropdown. |
| `TransactionForm.FailureKeepsDisabled` | components/TransactionForm.tsx:48-55 | Once `addAction` has thrown, only a completed submission could re-enable the button. |
| `TransactionForm.SelectionAlwaysOffered` | components/TransactionForm.tsx:152-158 | For a category list held fixed across the events, whatever the events, the selection stays empty or one of the offered names. |
| `TransactionForm.SelectionFromInitial` | components/TransactionForm.tsx:19-22 | From the initial state, with the category list held fixed, the selection is always empty or the name of an offered category. |
| `TransactionForm.HiddenFields` | components/TransactionForm.tsx:73-129 | The type field is "INCOME" for an income and "EXPENSE" for an expense. The category is "Income" for an income and the selection for an expense. |
| `TransactionForm.ChooseThenSubmit` | components/TransactionForm.tsx:129 | An expense is filed under the chosen category, while switching to income overrides the choice with "Income". |
| `TransactionForm.SubmissionRecorded` | components/TransactionForm.tsx:73 | The row `addTransaction` creates from the form carries the form's type and category. |
| `DarkModeToggle.Mount` | components/DarkModeToggle.tsx:9-18 | Dark iff the stored theme is "dark", or it is absent or empty and the system prefers dark. Mounting never writes storage and never removes the class. A dark result carries the class, and a light result leaves the class as it was. |
| `DarkModeToggle.Toggle` | components/DarkModeToggle.tsx:20-30 | The flag flips. Going dark adds the class and stores "dark"; going light removes it and stores "light". |
| `DarkModeToggle.ToggleConsistent` | components/DarkModeToggle.tsx:23-29 | After any toggle, the class and the stored theme agree with the flag. |
| `DarkModeToggle.ToggleTwice` | components/DarkModeToggle.tsx:20-30 | Toggling twice restores the flag and puts the class in line with it. From a consistent state it restores everything. |
| `DarkModeToggle.ToggleSurvivesReload` | components/DarkModeToggle.tsx:11-29 | After a toggle, mounting again resolves to the same mode whatever the system prefers. |
| `SubscriptionCard.EmptyCard` | components/SubscriptionCard.tsx:11-30 | An empty list totals 0 and shows the empty-state message, so a non-zero total never comes with the message. |
| `SubscriptionCard.TotalMonthlyNonNegative` | components/SubscriptionCard.tsx:11 | With non-negative amounts the monthly total is never negative. Neither `addSubscription` nor the card's amount input rejects a negative amount, so one posted negative amount can make the total negative. |
| `SubscriptionCard.TotalMonthlyReorder` | components/SubscriptionCard.tsx:11 | The total does not change when the list is reordered. |
| `SubscriptionCard.TotalMonthlyAppend` | components/SubscriptionCard.tsx:11 | Appending a subscription raises the total by exactly its amount. |
| `SubscriptionCard.AddSubscriptionTotal` | app/actions.ts:35-45 | `addSubscription` raises the caller's monthly total by the unchecked amount and leaves every other user's total alone. |

## Left out

- `RecordStore.AddTransaction`: models the intended guard, which rejects a NaN amount. The guard as written at app/actions.ts:19 lets NaN through and passes it on to `prisma.expense.create`; what the database then does with a NaN amount is not part of this model. `RecordStore.AmountPassesAsWritten` models only the guard, and "## Findings" records it. `Step`, `StepIsolatesOwners`, `StepKeepsIdsFresh` and the dashboard lemmas built on it describe the corrected action.
- `RecordStore.AddCategory`: stores the tag glyph (`RecordStore.CategoryIcon`) as the default icon. The literal as written at app/actions.ts:104 is a five-character mis-decoded string; `RecordStore.IconAsWritten` models it, and "## Findings" records it. `Step`, `TransactionForm.StoredIconShown` and the other lemmas built on it describe the corrected action.
- Prisma, Clerk and `revalidatePath`: the database is the `Store` value, the identity is an argument, and cache revalidation has no modelled effect.
- Rendering: class names, layout and icons are reduced to the values they depend on (`Colour`, `Trend`, `Insight`, the hint and empty-state predicates).
- JavaScript numbers: amounts are exact reals. Rounding, `toFixed(1)`, `toLocaleString` and `parseInt` are not modelled. `parseFloat` is modelled only as far as the NaN result matters to the amount guard.
- `Dashboard.BudgetLimit`: does not model `|| 0` turning a NaN budget into 0, because budget amounts are reals.
- Locale formatting: `toLocaleDateString` is the year-less `Calendar.LabelOf`. The rendered text "Jan 28" is one-to-one on (month, day), so label equality is day-and-month equality. Time zones are folded into each row's calendar day; "today" and the row dates are days in the server's local time zone, where the page is rendered.
- `Dashboard.Home`: the pie's slices come in the order of the store's table, oldest row first. The page fetches with `orderBy: { date: 'desc' }` (app/page.tsx:24), so there the slices are in newest-first order of first occurrence. `Dashboard.FetchOrderIrrelevant` proves that this order is the only thing that differs: the total, each category's amount and the history bars are the same for every ordering.
- `Dashboard.History`: the page makes one `new Date()` per window day (app/page.tsx:55); the model takes one `today` for all five, so it does not model a render that straddles midnight.
- `TransactionForm.SelectionAlwaysOffered`: the category list is held fixed for the whole run of events. A re-render with a new list (say the first stored category replacing the built-ins) keeps the old selection, which may then not be on offer.
- The page's category list (app/page.tsx:32-34): it feeds the settings modal and the options of the page's own `<select>` (app/page.tsx:159-173), after the five fixed options. Neither is aggregated, and the page's markup is not modelled.
- The check-then-act race in `setBudget`: the actions run one at a time.
- The exception messages ('Unauthorized', 'You must be logged in', 'Amount must be positive'): `ActionError` records which one, not its text.
- `TransactionForm`: the DOM reset of the form's inputs (`formRef.current?.reset()`) and the description and amount fields are not part of the state. The click-outside test is an event.
- `SubscriptionCard`: the shown page does not mount the card or the other components, so their props are parameters.
- The other components (settings modal, search filter, charts, stats card, delete button, providers, layout, debug panel): they hold view state, timing or library wiring only.
- The HTML constraints on the form inputs (`required`, `min`, `type="number"`): the actions are modelled as reachable with any field values, as a direct request allows.

## Findings

| source | as written | input that shows it | evidently intended | confidence | as-written member | corrected member |
|---|---|---|---|---|---|---|
| app/actions.ts:19 | `if (amount <= 0) throw` is false for NaN, so NaN passes | `addTransaction` with amount "abc" (`parseFloat` gives NaN) gets past the guard and reaches `prisma.expense.create` with a NaN amount | only a positive number is accepted | medium, not executed | `RecordStore.AmountGuardDiscrepancy` | `RecordStore.AddTransaction` |
| app/actions.ts:104 | the default icon literal is the tag glyph's UTF-8 bytes read back as Windows-1252: "ðŸ·ï¸" | `addCategory` with an empty icon stores five mis-decoded characters, not the tag glyph the form falls back to | the tag glyph U+1F3F7 U+FE0F | high, not executed | `RecordStore.IconDefaultDiscrepancy` | `RecordStore.CategoryIcon` |
