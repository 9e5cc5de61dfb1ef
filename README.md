# Personal expense tracker — a verified model

The tracker is a Streamlit application. Users sign up and log in against a shared
credential table. Each user records dated, categorised expenses in a store file of their
own, sets monthly budget goals per category, and sees how much of each goal the current
month has used. This project models the logic beneath the interface, in Dafny:

- `Tracker.dfy` — class `ExpenseTracker`. It holds the credential table (username to
  password hash), the store files (file name to ledger), and the session pair
  `authenticated`/`username`. Its methods are the table operations of `app.py` and the
  handlers of the login, sign-up, logout and account-deletion controls in `main`.
  SHA-256 is the uninterpreted function `hash`, a constant of the class.
- `Ledger.dfy` — one store as a value: the `expenses` rows in rowid order, the last id
  AUTOINCREMENT issued, and the `budget_goals` rows in rowid order. It also holds the
  table operations as functions on that value, and their lemmas.
- `Budget.dfy` — the dashboard filter, and the budget progress of each goal: month-to-date
  spending, capped percentage, bar colour and status message.
- `Dates.dfy` — calendar dates and their chronological order.
- `Wrappers.dfy` — `Option`, used for nullable columns and absent parameters.

Amounts are exact `real`s. `date.today()` is a parameter. An expense's `receipt_photo` is
kept as opaque optional text.

What the contracts establish, in the system's terms:

- Sign-up adds exactly `username ↦ hash(password)`. It changes nothing when the username
  exists or when the confirmation differs from the password.
- Login succeeds exactly when the row exists and its hash matches the given password.
  An unknown user and a wrong password give the same answer.
- A new expense gets an id greater than every id issued before, including ids of deleted
  rows. Deletion removes exactly the row with that id. The listing is every surviving row
  exactly once, latest date first.
- Budget goals are upserts. Setting a goal twice is the same as setting it once, and a
  later limit replaces an earlier one. Each category keeps at most one goal row.
- Store names are injective, so no two users share a ledger.
- Account deletion removes the credential row and the store. It never touches the
  session, even when the typed username is not the logged-in user's.
- A goal's `cat_total` (group-by, then lookup with default 0) equals the direct sum of
  that category's expenses dated from the first of the month up to today. With
  non-negative amounts the percentage lies in `[0, 100]`.
- The bar colour and the message use different thresholds. With a positive limit they
  disagree at exactly two spending levels: exactly the limit (red, with a warning message) and exactly 80% of it
  (yellow, with "on track"). A limit of 0 gives green with an over-budget message for
  any positive spending.

A few consequences of the account-deletion contract are worth stating. An account whose
username is the empty string can sign up and log in, but the deletion control refuses an
empty name, so that account can never be deleted. A user who deletes their own account
stays logged in. `OpenLedger` then recreates an empty store for them. `AccountLifecycle`
walks through such a session using the contracts alone.

Boundary behaviour of the code, each fact proved by the member named:

- Spending exactly 80% of a goal gives a yellow bar with the "on track" message
  (`Budget.AtEightyPercent`).
- Spending equal to the limit gives a red bar with a warning, not an over-budget message
  (`Budget.AtLimit`).
- A goal of 0 with nothing spent gives a green bar and no message (`Budget.ZeroLimit`).
- Deleting the logged-in user's own account keeps the session
  (`Tracker.ExpenseTracker.SubmitDeleteAccount`).
- `ORDER BY date DESC` fixes no order among rows of the same date, so the listing
  promises only date order and that every row appears once
  (`Tracker.ExpenseTracker.GetExpenses`).

## Model

| member | source | states |
|---|---|---|
| Tracker.ExpenseTracker.constructor | app.py:300-305 | the session starts unauthenticated with an empty username; a missing credential table starts empty, an existing one is kept |
| Tracker.ExpenseTracker.VerifyPassword | app.py:45-46 | computes whether the stored hash equals the hash of the given password |
| Tracker.ExpenseTracker.Signup | app.py:48-55 | succeeds iff the username is new; then adds exactly `username ↦ hash(password)`, otherwise leaves the table unchanged |
| Tracker.ExpenseTracker.Authenticate | app.py:57-63 | true iff the user has a row whose hash equals the hash of the given password (`verify_password`, app.py:45-46); false for an unknown user |
| Tracker.ExpenseTracker.InitDb | app.py:66-95 | a missing store gets empty tables; an existing store is left exactly as it was |
| Tracker.ExpenseTracker.AddExpense | app.py:97-103 | only the named store changes, by `Ledger.AddExpense` |
| Tracker.ExpenseTracker.GetExpenses | app.py:105-108 | the listing is date-descending and holds every row of the store exactly once |
| Tracker.ExpenseTracker.DeleteExpense | app.py:110-113 | only the named store changes, by `Ledger.DeleteExpense` |
| Tracker.ExpenseTracker.SetBudgetGoal | app.py:115-122 | only the named store's goals change, by `Ledger.UpsertGoal`; the primary key is kept |
| Tracker.ExpenseTracker.GetBudgetGoals | app.py:124-127 | returns the store's goal rows in table order, no category twice |
| Tracker.ExpenseTracker.DeleteBudgetGoal | app.py:129-132 | only the named store's goals change, by `Ledger.RemoveGoal`; the primary key is kept |
| Tracker.ExpenseTracker.DeleteUserAccount | app.py:134-149 | removes exactly the user's credential row and the store `expenses_<user>.db`, returns true, leaves the session alone |
| Tracker.ExpenseTracker.SubmitLogin | app.py:311-322 | succeeds iff the credentials authenticate; success sets the session to (true, user), failure leaves it unchanged |
| Tracker.ExpenseTracker.SubmitSignup | app.py:323-334 | a password mismatch never touches the table; otherwise registered iff the username was new, with exactly the new row added |
| Tracker.ExpenseTracker.CheckLogout | app.py:353-359 | the parameter value "true", and only it, resets the session to (false, "") |
| Tracker.ExpenseTracker.OpenLedger | app.py:361-364 | the store opened is the session user's own, `expenses_<user>.db`, created empty if missing, otherwise unchanged |
| Tracker.ExpenseTracker.SubmitDeleteAccount | app.py:599-610 | an empty name changes nothing; any other typed name loses its credential row and store; the session is unchanged either way |
| Tracker.StoreName | app.py:363 | computes the store file name `expenses_<username>.db`, the same name account deletion removes (app.py:143) |
| Tracker.StoreNameInjective | app.py:363 | distinct usernames give distinct store file names |
| Tracker.LedgersIsolated | app.py:363 | changing one user's ledger leaves every other user's ledger, and its presence, unchanged |
| Ledger.Empty | app.py:67-86 | the ledger of a new store: no expense rows, no goal rows, no id issued yet, and the ledger invariant holds |
| Ledger.AddExpense | app.py:97-103 | appends exactly one row, whose id exceeds every id issued so far and every id in the table; goals unchanged; ledger invariant kept |
| Ledger.WithoutId | app.py:112 | computes the table after `DELETE ... WHERE id = ?`: the rows whose id differs, in table order |
| Ledger.WithoutIdMembers | app.py:112 | a row survives the deletion iff it was in the table and its id differs |
| Ledger.WithoutIdAbsent | app.py:112 | deleting an id no row has leaves the table unchanged |
| Ledger.WithoutIdIncreasing | app.py:112 | deleting rows keeps the table in increasing id order |
| Ledger.DeleteExpense | app.py:110-113 | the surviving rows are exactly those with another id; goals and id counter unchanged; a no-op when the id is absent |
| Ledger.DeleteExpenseRemovesRow | app.py:110-113 | deleting the id of row i removes row i and no other row |
| Ledger.NoIdReuse | app.py:71 | after a deletion, the next insert does not reissue the deleted id |
| Ledger.InsertByDate | app.py:107 | inserting into a date-descending listing keeps it date-descending and adds exactly one row |
| Ledger.SortByDateDesc | app.py:107 | the result is date-descending and a permutation of the rows |
| Ledger.LimitOf | app.py:82-83 | a limit is found iff some goal row has the category |
| Ledger.UpsertGoal | app.py:115-122 | afterwards the category's limit is the new one and every other category's limit is unchanged; a new category is appended at the end |
| Ledger.UpsertGoalInPlace | app.py:117-121 | when the category already has a goal row, the upsert replaces that row where it stands and moves no other row |
| Ledger.UpsertGoalCategories | app.py:117-121 | an upsert adds its category, and only it, to the set of categories with a goal |
| Ledger.UpsertGoalDistinct | app.py:82 | an upsert never gives a category a second goal row |
| Ledger.UpsertGoalIdempotent | app.py:117-121 | setting the same goal twice equals setting it once |
| Ledger.UpsertGoalOverwrites | app.py:117-121 | setting L1 then L2 for a category equals setting L2 alone |
| Ledger.RemoveGoal | app.py:129-132 | keeps exactly the goal rows of other categories; a no-op when the category has no goal |
| Ledger.RemoveGoalRemovesRow | app.py:129-132 | with one row per category, removing the category of goal row i yields the goal rows without row i, the others in their order |
| Ledger.RemoveGoalDistinct | app.py:129-132 | removal keeps the primary key and takes exactly that category out of the set of categories |
| Ledger.RemoveGoalLimits | app.py:129-132 | removal clears that category's limit and keeps every other limit |
| Budget.Shown | app.py:415-417 | computes one element of the dashboard mask: the row's date lies within [from, to], and its category is the selected one or the selection is "All" |
| Budget.FilterExpenses | app.py:415-418 | a row is shown iff its date is within [from, to] and its category is the selected one or the selection is "All" |
| Budget.FilterCounts | app.py:415-418 | each row the mask keeps is shown exactly as often as it occurs in the listing; other rows never |
| Budget.FilterAppend | app.py:415-418 | the mask works row by row in listing order: filtering a concatenation is concatenating the filtered parts, so shown rows keep their order |
| Budget.FilterKeepsDateOrder | app.py:415-418 | filtering a date-descending listing keeps it date-descending |
| Budget.DefaultFilterShowsAll | app.py:406-418 | with the default range (earliest to latest date) and "All", every row is shown |
| Budget.MonthExpenses | app.py:546-549 | keeps exactly the rows dated from the first of today's month up to today |
| Budget.GroupTotals | app.py:550 | has a total for exactly the categories that occur |
| Budget.CatTotal | app.py:559 | computes `cat_total`: the category's group total, or 0 when the category has no group |
| Budget.GroupTotalsLookup | app.py:550-559 | looking a category up in the group totals, 0 when absent, gives the sum of its amounts |
| Budget.MonthExpensesSpend | app.py:548-550 | summing a category over the month rows equals the month-to-date spending of that category |
| Budget.CatTotalIsMonthSpend | app.py:546-559 | `cat_total` equals the sum of the category's amounts dated from the first of the month up to today |
| Budget.MonthSpendNonNegative | app.py:372 | with non-negative amounts (the amount field's minimum of 0), spending is non-negative |
| Budget.MonthSpendNone | app.py:559 | a category with no expense this month has `cat_total` 0 |
| Budget.Percentage | app.py:562 | 0 without a positive limit; 100 exactly when spending reaches a positive limit, otherwise spending as a share of the limit; in [0, 100] for non-negative spending |
| Budget.ColourOf | app.py:565-573 | computes the bar colour: red from 100%, yellow from 80%, green below |
| Budget.NoticeOf | app.py:590-595 | computes the message: over budget by the excess when spending exceeds the limit, else a warning above 80%, else "on track" above 0%, else none |
| Budget.ProgressOf | app.py:554-595 | computes one goal's progress: its spending, percentage, colour and message, from the goal and the spending |
| Budget.BudgetProgress | app.py:542-595 | nothing without expenses; otherwise one entry per goal in goal order, built from the month-to-date spending; percentages in [0, 100] with non-negative amounts |
| Budget.ScaledComparison | app.py:562-592 | comparing a percentage of a positive limit with a threshold is comparing spending with that share of the limit |
| Budget.ColourByAmounts | app.py:565-573 | with a positive limit: red iff spending >= limit, yellow iff 80% of limit <= spending < limit, green otherwise |
| Budget.NoticeByAmounts | app.py:590-595 | with a positive limit: over budget iff spending > limit, else warning iff spending > 80% of limit, else on track iff spending > 0, else no message |
| Budget.ColourAndNoticeDisagreeOnlyAtBoundaries | app.py:565-595 | with a positive limit: red without an over-budget message iff spending equals the limit; yellow without a warning iff spending is exactly 80% of it; green only with "on track" or no message; over budget only with red |
| Budget.ZeroLimit | app.py:562-595 | a limit of 0 gives percentage 0 and green, with an over-budget message iff spending is positive |
| Budget.AtEightyPercent | app.py:565-595 | at exactly 80% the colour is yellow but the message is "on track" |
| Budget.AtLimit | app.py:565-595 | spending equal to a positive limit is red with a warning at 100%, not an over-budget message |
| Budget.MayScenario | app.py:546-595 | expenses of 50 and 40 in May against a Food goal of 100, seen on 20 May: spent 90, 90%, yellow, warning |
| Dates.MonthStart | app.py:547 | computes `month_start`, the first day of the given date's month and year |
| Dates.InMonthToDate | app.py:548 | computes one element of `month_mask`: the date lies from `month_start` up to today |
| Dates.MonthToDateIsThisMonth | app.py:547-548 | the month-to-date window is the days of today's month and year from the 1st to today |

## Left out

- Rendering: the CSS, the layout, the forms and the HTML progress bar, including the
  bar's colour codes. This is interface code; `Budget.Colour` names the three colours.
- Charts, daily resampling, the pie chart and the Excel export. These are calls into
  pandas, matplotlib and openpyxl.
- Receipt images: opening and previewing with PIL, and the base64 encoding and decoding.
  The stored text is kept as an opaque `Option<string>`.
- The inside of SHA-256, a library call. `hash` is an arbitrary function, so every
  property holds for any hash function. The missing salt is therefore not visible in the
  model.
- SQLite and filesystem mechanics. Connections, `os.path.exists` and `os.remove` become
  map lookups and updates. The `id` column of `users` is never read, so it is not
  modelled.
- A store name is identified with its file by string equality. A case-insensitive
  filesystem, or a username containing path separators, could map two names to one file.
  The model does not capture that.
- A store file that exists but lacks the `budget_goals` table (app.py:87-95 creates it
  then). The model has no store without a goals table, so such an older store is treated
  as already having an empty one.
- Ledger operations on a store that does not exist raise an uncaught SQLite error in the
  source. Every caller runs `init_db` first (app.py:364), so these methods require the
  store to exist.
- Tracker.ExpenseTracker.DeleteUserAccount: always returns true. The `except` branch that
  returns false on an I/O error is not modelled, because the model has no I/O that can fail.
- `st.query_params.clear()`, `st.rerun()` and the success and error banners. These are
  interface effects with no state the model keeps.
- Floating-point behaviour of the REAL columns. Amounts and percentages are exact reals.
- `date.today()`. Today's date is a parameter of the budget computation.
- Interleaved sessions. Each browser session reruns the script on its own thread, so two
  sessions can act on one store or on `users.db` at once, for example one user in two tabs,
  or one user deleting another user's account while that user is active. The model takes
  one operation at a time and does not capture such interleavings.
- The width of ids. `Expense.id` and `lastId` are unbounded naturals. SQLite's rowid is a
  signed 64-bit integer, and AUTOINCREMENT fails with SQLITE_FULL once
  9223372036854775807 has been issued. The model has no such failure.
- The amount field's minimum of 0 is enforced only by the interface. Lemmas that need
  non-negative amounts take that as a hypothesis (`AmountsNonNegative`).
