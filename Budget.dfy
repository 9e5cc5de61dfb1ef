/**
 * The read-only computations of the dashboard and budget tabs: the expense filter of
 * the dashboard, and per goal the current month's spending, the capped percentage, the
 * colour of the progress bar and the status message shown under it.
 */
module Budget {
  import opened Dates
  import opened Ledger

  // ------------------------------------------------------------ dashboard filter

  /**
   * One element of the dashboard's mask: dated within `[start, end]`, and of `selected`
   * unless the selection is the sentinel "All".
   */
  predicate Shown(e: Expense, start: Date, end: Date, selected: string) {
    OnOrBefore(start, e.date) && OnOrBefore(e.date, end) && (selected == "All" || e.category == selected)
  }

  /** `df.loc[mask]`: the rows the mask keeps, in their listing order. */
  function FilterExpenses(rows: seq<Expense>, start: Date, end: Date, selected: string): (r: seq<Expense>)
    ensures forall e :: e in r <==> e in rows && Shown(e, start, end, selected)
  {
    if rows == [] then []
    else
      var e := rows[0];
      var rest := FilterExpenses(rows[1..], start, end, selected);
      assert rows == [e] + rows[1..];
      if Shown(e, start, end, selected) then [e] + rest
      else rest
  }

  /** Each kept row is shown as often as it occurs in the listing, and no other row at all. */
  lemma {:induction false} FilterCounts(rows: seq<Expense>, start: Date, end: Date, selected: string)
    ensures forall e ::
              multiset(FilterExpenses(rows, start, end, selected))[e] ==
              if Shown(e, start, end, selected) then multiset(rows)[e] else 0
  {
    if rows != [] {
      FilterCounts(rows[1..], start, end, selected);
      assert rows == [rows[0]] + rows[1..];
    }
  }

  /** The filter works row by row in listing order: filtering a concatenation concatenates. */
  lemma {:induction false} FilterAppend(a: seq<Expense>, b: seq<Expense>, start: Date, end: Date, selected: string)
    ensures FilterExpenses(a + b, start, end, selected) ==
      FilterExpenses(a, start, end, selected) + FilterExpenses(b, start, end, selected)
  {
    if a == [] {
      assert a + b == b;
    } else {
      FilterAppend(a[1..], b, start, end, selected);
      assert (a + b)[0] == a[0];
      assert (a + b)[1..] == a[1..] + b;
    }
  }

  /** The filter keeps the listing's order, so a date-descending listing stays date-descending. */
  lemma {:induction false} FilterKeepsDateOrder(rows: seq<Expense>, start: Date, end: Date, selected: string)
    requires SortedByDateDesc(rows)
    ensures SortedByDateDesc(FilterExpenses(rows, start, end, selected))
  {
    if rows != [] {
      var tail := rows[1..];
      assert SortedByDateDesc(tail) by {
        forall a, b | 0 <= a < b < |tail| ensures OnOrBefore(tail[b].date, tail[a].date) {
          assert tail[a] == rows[a + 1] && tail[b] == rows[b + 1];
        }
      }
      FilterKeepsDateOrder(tail, start, end, selected);
      var rest := FilterExpenses(tail, start, end, selected);
      forall k | 0 <= k < |rest| ensures OnOrBefore(rest[k].date, rows[0].date) {
        assert rest[k] in tail;
        var j :| 0 <= j < |tail| && tail[j] == rest[k];
        assert rows[j + 1] == rest[k];
      }
    }
  }

  /**
   * The filter's defaults are the earliest and the latest date of the listing and "All";
   * with them the dashboard shows every row.
   */
  lemma {:induction false} DefaultFilterShowsAll(rows: seq<Expense>, start: Date, end: Date)
    requires forall i :: 0 <= i < |rows| ==> OnOrBefore(start, rows[i].date) && OnOrBefore(rows[i].date, end)
    ensures FilterExpenses(rows, start, end, "All") == rows
  {
    if rows != [] {
      var tail := rows[1..];
      assert forall i :: 0 <= i < |tail| ==> OnOrBefore(start, tail[i].date) && OnOrBefore(tail[i].date, end) by {
        forall i | 0 <= i < |tail| ensures OnOrBefore(start, tail[i].date) && OnOrBefore(tail[i].date, end) {
          assert tail[i] == rows[i + 1];
        }
      }
      DefaultFilterShowsAll(tail, start, end);
      assert rows == [rows[0]] + tail;
    }
  }

  // ------------------------------------------------------- month-to-date totals

  /** `month_df`: the expenses dated this month up to `today`, in listing order. */
  function MonthExpenses(rows: seq<Expense>, today: Date): (r: seq<Expense>)
    ensures forall e :: e in r <==> e in rows && InMonthToDate(e.date, today)
  {
    if rows == [] then []
    else
      assert rows == [rows[0]] + rows[1..];
      if InMonthToDate(rows[0].date, today) then [rows[0]] + MonthExpenses(rows[1..], today)
      else MonthExpenses(rows[1..], today)
  }

  /** Some row of `rows` has `category`. */
  predicate Occurs(rows: seq<Expense>, category: string) {
    exists i :: 0 <= i < |rows| && rows[i].category == category
  }

  lemma OccursCons(rows: seq<Expense>, category: string)
    requires rows != []
    ensures Occurs(rows, category) <==> rows[0].category == category || Occurs(rows[1..], category)
  {
    if Occurs(rows[1..], category) {
      var i :| 0 <= i < |rows[1..]| && rows[1..][i].category == category;
      assert rows[i + 1].category == category;
    }
    if Occurs(rows, category) && rows[0].category != category {
      var i :| 0 <= i < |rows| && rows[i].category == category;
      assert rows[1..][i - 1].category == category;
    }
  }

  /** `month_df.groupby('category')['amount'].sum()`: one total per category that occurs. */
  function GroupTotals(rows: seq<Expense>): (totals: map<string, real>)
    ensures forall c :: c in totals <==> Occurs(rows, c)
  {
    if rows == [] then map[]
    else
      var t := GroupTotals(rows[1..]);
      var c := rows[0].category;
      assert forall d :: Occurs(rows, d) <==> d == c || Occurs(rows[1..], d) by {
        forall d ensures Occurs(rows, d) <==> d == c || Occurs(rows[1..], d) { OccursCons(rows, d); }
      }
      t[c := rows[0].amount + (if c in t then t[c] else 0.0)]
  }

  /** `cat_total` (app.py:559): the group's total, or 0 when the category has no group. */
  function CatTotal(totals: map<string, real>, category: string): real {
    if category in totals then totals[category] else 0.0
  }

  /** The sum of the amounts of the rows of `category`. */
  function SpentOn(rows: seq<Expense>, category: string): real {
    if rows == [] then 0.0
    else (if rows[0].category == category then rows[0].amount else 0.0) + SpentOn(rows[1..], category)
  }

  /**
   * Reference definition of a goal's spending: the sum of the amounts of the expenses of
   * `category` dated from the first of `today`'s month up to `today`.
   */
  function MonthSpend(rows: seq<Expense>, category: string, today: Date): real {
    if rows == [] then 0.0
    else
      (if rows[0].category == category && InMonthToDate(rows[0].date, today) then rows[0].amount else 0.0)
      + MonthSpend(rows[1..], category, today)
  }

  /** Looking a category up in the group-by totals gives the sum over its rows, 0 without any. */
  lemma {:induction false} GroupTotalsLookup(rows: seq<Expense>, category: string)
    ensures CatTotal(GroupTotals(rows), category) == SpentOn(rows, category)
  {
    if rows != [] {
      GroupTotalsLookup(rows[1..], category);
    }
  }

  /** Summing a category over `month_df` is summing it over the month-to-date rows. */
  lemma {:induction false} MonthExpensesSpend(rows: seq<Expense>, category: string, today: Date)
    ensures SpentOn(MonthExpenses(rows, today), category) == MonthSpend(rows, category, today)
  {
    if rows != [] {
      MonthExpensesSpend(rows[1..], category, today);
      if InMonthToDate(rows[0].date, today) {
        assert MonthExpenses(rows, today)[1..] == MonthExpenses(rows[1..], today);
      }
    }
  }

  /** The lookup at app.py:559 after the group-by at app.py:550 computes `MonthSpend`. */
  lemma CatTotalIsMonthSpend(rows: seq<Expense>, category: string, today: Date)
    ensures CatTotal(GroupTotals(MonthExpenses(rows, today)), category) == MonthSpend(rows, category, today)
  {
    GroupTotalsLookup(MonthExpenses(rows, today), category);
    MonthExpensesSpend(rows, category, today);
  }

  predicate AmountsNonNegative(rows: seq<Expense>) {
    forall i :: 0 <= i < |rows| ==> rows[i].amount >= 0.0
  }

  /** With no negative amounts, a category's spending is never negative. */
  lemma {:induction false} MonthSpendNonNegative(rows: seq<Expense>, category: string, today: Date)
    requires AmountsNonNegative(rows)
    ensures MonthSpend(rows, category, today) >= 0.0
  {
    if rows != [] {
      assert AmountsNonNegative(rows[1..]) by {
        forall i | 0 <= i < |rows[1..]| ensures rows[1..][i].amount >= 0.0 { assert rows[1..][i] == rows[i + 1]; }
      }
      MonthSpendNonNegative(rows[1..], category, today);
    }
  }

  /** A category without expenses this month has spent 0. */
  lemma {:induction false} MonthSpendNone(rows: seq<Expense>, category: string, today: Date)
    requires forall i :: 0 <= i < |rows| ==> !(rows[i].category == category && InMonthToDate(rows[i].date, today))
    ensures MonthSpend(rows, category, today) == 0.0
  {
    if rows != [] {
      assert forall i :: 0 <= i < |rows[1..]| ==>
               !(rows[1..][i].category == category && InMonthToDate(rows[1..][i].date, today)) by {
        forall i | 0 <= i < |rows[1..]|
          ensures !(rows[1..][i].category == category && InMonthToDate(rows[1..][i].date, today))
        { assert rows[1..][i] == rows[i + 1]; }
      }
      MonthSpendNone(rows[1..], category, today);
    }
  }

  // --------------------------------------------------------- percentage, status

  /** `min((cat_total / limit) * 100, 100) if limit > 0 else 0`. */
  function Percentage(total: real, limit: real): (p: real)
    ensures limit <= 0.0 ==> p == 0.0
    ensures limit > 0.0 ==> (p == 100.0 <==> total >= limit)
    ensures limit > 0.0 && total < limit ==> p * limit == total * 100.0
    ensures total >= 0.0 ==> 0.0 <= p <= 100.0
  {
    if limit > 0.0 then
      var q := (total / limit) * 100.0;
      assert q * limit == total * 100.0;
      assert q >= 100.0 <==> total >= limit;
      assert total >= 0.0 ==> q >= 0.0;
      if q <= 100.0 then q else 100.0
    else 0.0
  }

  /** The colour of the progress bar. */
  datatype Colour = Red | Yellow | Green

  /** `percentage >= 100` is red, `percentage >= 80` yellow, anything below green. */
  function ColourOf(percentage: real): Colour {
    if percentage >= 100.0 then Red
    else if percentage >= 80.0 then Yellow
    else Green
  }

  /** The status message under the progress bar; `NoNotice` when none is shown. */
  datatype Notice = OverBudget(excess: real) | Warning(percentUsed: real) | OnTrack | NoNotice

  /**
   * Over budget when spending exceeds the limit, else a warning above 80 percent, else
   * "on track" above 0 percent. These thresholds are not the colour's.
   */
  function NoticeOf(total: real, limit: real, percentage: real): Notice {
    if total > limit then OverBudget(total - limit)
    else if percentage > 80.0 then Warning(percentage)
    else if percentage > 0.0 then OnTrack
    else NoNotice
  }

  /** What the budget tab shows for one goal. */
  datatype GoalProgress = GoalProgress(
    category: string, spent: real, limit: real, percentage: real, colour: Colour, notice: Notice)

  function ProgressOf(goal: BudgetGoal, spent: real): GoalProgress {
    var p := Percentage(spent, goal.monthlyLimit);
    GoalProgress(goal.category, spent, goal.monthlyLimit, p, ColourOf(p), NoticeOf(spent, goal.monthlyLimit, p))
  }

  /**
   * The budget progress section: nothing when there are no expenses at all, otherwise one
   * entry per goal row, in the goals' order, built from the month-to-date group totals.
   */
  function BudgetProgress(rows: seq<Expense>, goals: seq<BudgetGoal>, today: Date): (r: seq<GoalProgress>)
    ensures rows == [] ==> r == []
    ensures rows != [] ==> |r| == |goals|
    ensures rows != [] ==> forall i :: 0 <= i < |goals| ==>
      r[i] == ProgressOf(goals[i], MonthSpend(rows, goals[i].category, today))
    ensures AmountsNonNegative(rows) ==> forall i :: 0 <= i < |r| ==> 0.0 <= r[i].percentage <= 100.0
  {
    if rows == [] then []
    else
      var totals := GroupTotals(MonthExpenses(rows, today));
      var r := seq(|goals|, i requires 0 <= i < |goals| => ProgressOf(goals[i], CatTotal(totals, goals[i].category)));
      assert forall i :: 0 <= i < |goals| ==> r[i] == ProgressOf(goals[i], MonthSpend(rows, goals[i].category, today)) by {
        forall i | 0 <= i < |goals| ensures r[i] == ProgressOf(goals[i], MonthSpend(rows, goals[i].category, today)) {
          CatTotalIsMonthSpend(rows, goals[i].category, today);
        }
      }
      assert AmountsNonNegative(rows) ==> forall i :: 0 <= i < |r| ==> 0.0 <= r[i].percentage <= 100.0 by {
        if AmountsNonNegative(rows) {
          forall i | 0 <= i < |r| ensures 0.0 <= r[i].percentage <= 100.0 {
            MonthSpendNonNegative(rows, goals[i].category, today);
          }
        }
      }
      r
  }

  // ------------------------------------------------- the two thresholds compared

  /** Comparing a percentage of a positive limit is comparing the amount it stands for. */
  lemma ScaledComparison(p: real, total: real, limit: real, k: real)
    requires limit > 0.0 && p * limit == total * 100.0
    ensures p >= k <==> total * 100.0 >= k * limit
    ensures p > k <==> total * 100.0 > k * limit
  {
    assert (p - k) * limit == total * 100.0 - k * limit;
  }

  /** With a positive limit, the colour in terms of spending: red from the limit, yellow from 80% of it. */
  lemma ColourByAmounts(total: real, limit: real)
    requires limit > 0.0
    ensures ColourOf(Percentage(total, limit)) ==
      if total >= limit then Red else if total >= 0.8 * limit then Yellow else Green
  {
    var p := Percentage(total, limit);
    if total < limit {
      ScaledComparison(p, total, limit, 80.0);
    }
  }

  /**
   * With a positive limit, the message in terms of spending: over budget above the limit,
   * a warning above 80% of it, "on track" above nothing.
   */
  lemma NoticeByAmounts(total: real, limit: real)
    requires limit > 0.0
    ensures NoticeOf(total, limit, Percentage(total, limit)) ==
      if total > limit then OverBudget(total - limit)
      else if total > 0.8 * limit then Warning(Percentage(total, limit))
      else if total > 0.0 then OnTrack
      else NoNotice
  {
    var p := Percentage(total, limit);
    if total < limit {
      ScaledComparison(p, total, limit, 80.0);
      ScaledComparison(p, total, limit, 0.0);
    }
  }

  /**
   * With a positive limit the colour and the message tell the same story except at two
   * spending levels: exactly the limit (red, but a warning) and exactly 80% of it (yellow,
   * but "on track").
   */
  lemma ColourAndNoticeDisagreeOnlyAtBoundaries(total: real, limit: real)
    requires limit > 0.0
    ensures var p := Percentage(total, limit);
      (ColourOf(p) == Red && !NoticeOf(total, limit, p).OverBudget?) <==> total == limit
    ensures var p := Percentage(total, limit);
      (ColourOf(p) == Yellow && !NoticeOf(total, limit, p).Warning?) <==> total == 0.8 * limit
    ensures var p := Percentage(total, limit);
      ColourOf(p) == Green ==> NoticeOf(total, limit, p) in {OnTrack, NoNotice}
    ensures var p := Percentage(total, limit);
      NoticeOf(total, limit, p).OverBudget? ==> ColourOf(p) == Red
  {
    ColourByAmounts(total, limit);
    NoticeByAmounts(total, limit);
  }

  /** A goal of 0 is never divided by: the bar is green, and any positive spending is over budget. */
  lemma ZeroLimit(total: real)
    ensures Percentage(total, 0.0) == 0.0 && ColourOf(Percentage(total, 0.0)) == Green
    ensures NoticeOf(total, 0.0, Percentage(total, 0.0)) == if total > 0.0 then OverBudget(total) else NoNotice
  {
  }

  /** At exactly 80 percent the bar is yellow but the message says "on track". */
  lemma AtEightyPercent(limit: real)
    requires limit > 0.0
    ensures Percentage(0.8 * limit, limit) == 80.0
    ensures ColourOf(80.0) == Yellow && NoticeOf(0.8 * limit, limit, 80.0) == OnTrack
  {
    assert Percentage(0.8 * limit, limit) * limit == 0.8 * limit * 100.0;
  }

  /** Spending exactly the limit is red with a warning, not an over-budget message. */
  lemma AtLimit(limit: real)
    requires limit > 0.0
    ensures Percentage(limit, limit) == 100.0
    ensures ColourOf(100.0) == Red && NoticeOf(limit, limit, 100.0) == Warning(100.0)
  {
  }

  /** Two May expenses of one category against a goal of 100, seen on 20 May 2024. */
  lemma MayScenario()
    ensures var food1 := Expense(1, Date(2024, 5, 1), "Food", "", 50.0, Wrappers.None);
            var food2 := Expense(2, Date(2024, 5, 15), "Food", "", 40.0, Wrappers.None);
            BudgetProgress([food2, food1], [BudgetGoal("Food", 100.0)], Date(2024, 5, 20))
              == [GoalProgress("Food", 90.0, 100.0, 90.0, Yellow, Warning(90.0))]
  {
    var food1 := Expense(1, Date(2024, 5, 1), "Food", "", 50.0, Wrappers.None);
    var food2 := Expense(2, Date(2024, 5, 15), "Food", "", 40.0, Wrappers.None);
    var today := Date(2024, 5, 20);
    assert [food2, food1][1..] == [food1];
    assert [food1][1..] == [];
    assert MonthSpend([food1], "Food", today) == 50.0;
    assert MonthSpend([food2, food1], "Food", today) == 90.0;
    assert Percentage(90.0, 100.0) == 90.0;
  }
}
