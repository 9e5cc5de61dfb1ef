/**
 * One user's expense store: the `expenses` table (ids issued by AUTOINCREMENT) and
 * the `budget_goals` table (keyed by category). A ledger is a value; the tracker keeps
 * one per store file name and replaces it when a statement changes a table.
 */
module Ledger {
  import opened Wrappers
  import opened Dates

  /** A row of `expenses`. `receiptPhoto` is the base64 text of the image, kept opaque. */
  datatype Expense = Expense(
    id: nat,
    date: Date,
    category: string,
    description: string,
    amount: real,
    receiptPhoto: Option<string>)

  /** A row of `budget_goals`. */
  datatype BudgetGoal = BudgetGoal(category: string, monthlyLimit: real)

  /**
   * `expenses` rows in rowid order, the largest id AUTOINCREMENT has issued
   * (SQLite's `sqlite_sequence` entry for the table), and `budget_goals` rows in rowid order.
   */
  datatype Ledger = Ledger(expenses: seq<Expense>, lastId: nat, goals: seq<BudgetGoal>)

  /** Rows are kept in rowid order, so ids strictly increase along the table. */
  predicate IdsIncreasing(rows: seq<Expense>) {
    forall i, j :: 0 <= i < j < |rows| ==> rows[i].id < rows[j].id
  }

  /** `category TEXT PRIMARY KEY`: no category has two goal rows. */
  predicate DistinctCategories(goals: seq<BudgetGoal>) {
    forall i, j :: 0 <= i < j < |goals| ==> goals[i].category != goals[j].category
  }

  /** Every id in the table has already been issued. */
  predicate IdsIssued(rows: seq<Expense>, lastId: nat) {
    forall i :: 0 <= i < |rows| ==> rows[i].id <= lastId
  }

  predicate Valid(l: Ledger) {
    IdsIncreasing(l.expenses) && IdsIssued(l.expenses, l.lastId) && DistinctCategories(l.goals)
  }

  predicate HasId(rows: seq<Expense>, id: int) {
    exists i :: 0 <= i < |rows| && rows[i].id == id
  }

  predicate HasCategory(goals: seq<BudgetGoal>, category: string) {
    exists i :: 0 <= i < |goals| && goals[i].category == category
  }

  /** The monthly limit set for `category`, if there is one. */
  function LimitOf(goals: seq<BudgetGoal>, category: string): (r: Option<real>)
    ensures r.Some? <==> HasCategory(goals, category)
  {
    if goals == [] then None
    else if goals[0].category == category then Some(goals[0].monthlyLimit)
    else
      assert HasCategory(goals, category) ==> HasCategory(goals[1..], category) by {
        if HasCategory(goals, category) {
          var i :| 0 <= i < |goals| && goals[i].category == category;
          assert goals[1..][i - 1] == goals[i];
        }
      }
      assert HasCategory(goals[1..], category) ==> HasCategory(goals, category) by {
        if HasCategory(goals[1..], category) {
          var i :| 0 <= i < |goals[1..]| && goals[1..][i].category == category;
          assert goals[i + 1] == goals[1..][i];
        }
      }
      LimitOf(goals[1..], category)
  }

  /** The ledger `init_db` creates for a missing store file: both tables empty. */
  function Empty(): (r: Ledger)
    ensures Valid(r) && r.expenses == [] && r.goals == []
  {
    Ledger([], 0, [])
  }

  // ---------------------------------------------------------------- expenses

  /**
   * `INSERT INTO expenses`: one row is appended whose id AUTOINCREMENT issues, one
   * more than every id issued so far, even ids of rows deleted since.
   */
  function AddExpense(l: Ledger, date: Date, category: string, description: string,
                      amount: real, receiptPhoto: Option<string>): (r: Ledger)
    requires Valid(l)
    ensures Valid(r)
    ensures r.goals == l.goals
    ensures r.lastId > l.lastId
    ensures r.expenses == l.expenses + [Expense(r.lastId, date, category, description, amount, receiptPhoto)]
    ensures forall i :: 0 <= i < |l.expenses| ==> l.expenses[i].id < r.lastId
  {
    var id := l.lastId + 1;
    Ledger(l.expenses + [Expense(id, date, category, description, amount, receiptPhoto)], id, l.goals)
  }

  /** The rows of `rows` whose id is not `id`, in their order. */
  function WithoutId(rows: seq<Expense>, id: int): seq<Expense> {
    if rows == [] then []
    else if rows[0].id == id then WithoutId(rows[1..], id)
    else [rows[0]] + WithoutId(rows[1..], id)
  }

  /** Deleting an id no row has changes nothing. */
  lemma {:induction false} WithoutIdAbsent(rows: seq<Expense>, id: int)
    requires !HasId(rows, id)
    ensures WithoutId(rows, id) == rows
  {
    if rows != [] {
      assert !HasId(rows[1..], id) by {
        forall k | 0 <= k < |rows[1..]| ensures rows[1..][k].id != id { assert rows[1..][k] == rows[k + 1]; }
      }
      WithoutIdAbsent(rows[1..], id);
      assert rows == [rows[0]] + rows[1..];
    }
  }

  /** Exactly the rows with another id survive. */
  lemma {:induction false} WithoutIdMembers(rows: seq<Expense>, id: int)
    ensures forall e :: e in WithoutId(rows, id) <==> e in rows && e.id != id
  {
    if rows != [] {
      WithoutIdMembers(rows[1..], id);
      assert rows == [rows[0]] + rows[1..];
    }
  }

  /** Taking rows out keeps the table in rowid order. */
  lemma {:induction false} WithoutIdIncreasing(rows: seq<Expense>, id: int)
    requires IdsIncreasing(rows)
    ensures IdsIncreasing(WithoutId(rows, id))
  {
    if rows != [] {
      var tail := rows[1..];
      IncreasingTail(rows);
      WithoutIdIncreasing(tail, id);
      WithoutIdMembers(tail, id);
      var rest := WithoutId(tail, id);
      if rows[0].id != id {
        forall k | 0 <= k < |rest| ensures rows[0].id < rest[k].id {
          assert rest[k] in tail;
        }
        assert IdsIncreasing([rows[0]] + rest);
      }
    }
  }

  lemma IncreasingTail(rows: seq<Expense>)
    requires rows != [] && IdsIncreasing(rows)
    ensures IdsIncreasing(rows[1..])
    ensures forall k :: 0 <= k < |rows[1..]| ==> rows[0].id < rows[1..][k].id
  {
    var tail := rows[1..];
    forall a, b | 0 <= a < b < |tail| ensures tail[a].id < tail[b].id {
      assert tail[a] == rows[a + 1] && tail[b] == rows[b + 1];
    }
    forall k | 0 <= k < |tail| ensures rows[0].id < tail[k].id {
      assert tail[k] == rows[k + 1];
    }
  }

  /** `DELETE FROM expenses WHERE id = ?`: a no-op when no row has that id. */
  function DeleteExpense(l: Ledger, id: int): (r: Ledger)
    requires Valid(l)
    ensures Valid(r)
    ensures r.goals == l.goals && r.lastId == l.lastId
    ensures forall e :: e in r.expenses <==> e in l.expenses && e.id != id
    ensures !HasId(l.expenses, id) ==> r == l
  {
    WithoutIdIncreasing(l.expenses, id);
    WithoutIdMembers(l.expenses, id);
    assert !HasId(l.expenses, id) ==> WithoutId(l.expenses, id) == l.expenses by {
      if !HasId(l.expenses, id) { WithoutIdAbsent(l.expenses, id); }
    }
    var rest := WithoutId(l.expenses, id);
    assert IdsIssued(rest, l.lastId) by {
      forall k | 0 <= k < |rest| ensures rest[k].id <= l.lastId { assert rest[k] in l.expenses; }
    }
    l.(expenses := rest)
  }

  /** Deleting the first row's id takes out the first row only. */
  lemma DeleteFirstRow(rows: seq<Expense>)
    requires rows != [] && IdsIncreasing(rows)
    ensures WithoutId(rows, rows[0].id) == rows[1..]
  {
    IncreasingTail(rows);
    assert !HasId(rows[1..], rows[0].id);
    WithoutIdAbsent(rows[1..], rows[0].id);
  }

  /** Ids are unique, so deleting the id of row `i` takes out that row and no other. */
  lemma {:induction false} DeleteExpenseRemovesRow(rows: seq<Expense>, i: nat)
    requires IdsIncreasing(rows)
    requires i < |rows|
    ensures WithoutId(rows, rows[i].id) == rows[..i] + rows[i + 1..]
  {
    if i == 0 {
      DeleteFirstRow(rows);
      assert rows[..i] + rows[i + 1..] == rows[1..];
    } else {
      var tail := rows[1..];
      IncreasingTail(rows);
      assert tail[i - 1] == rows[i];
      DeleteExpenseRemovesRow(tail, i - 1);
      assert rows == [rows[0]] + tail;
      WithoutIdCons(rows[0], tail, rows[i].id);
      SpliceAfterHead(rows, i);
    }
  }

  lemma WithoutIdCons(head: Expense, tail: seq<Expense>, id: int)
    requires head.id != id
    ensures WithoutId([head] + tail, id) == [head] + WithoutId(tail, id)
  {
    assert ([head] + tail)[1..] == tail;
  }

  /** Cutting out element `i > 0` of `s` is keeping its head and cutting element `i - 1` of its tail. */
  lemma SpliceAfterHead<T>(s: seq<T>, i: nat)
    requires 0 < i < |s|
    ensures s[..i] + s[i + 1..] == [s[0]] + (s[1..][..i - 1] + s[1..][i..])
  {
    assert s[..i] == [s[0]] + s[1..][..i - 1];
    assert s[i + 1..] == s[1..][i..];
  }

  /** Deleting a row and adding another never issues the deleted row's id again. */
  lemma NoIdReuse(l: Ledger, id: int, date: Date, category: string, description: string,
                  amount: real, receiptPhoto: Option<string>)
    requires Valid(l) && HasId(l.expenses, id)
    ensures var r := AddExpense(DeleteExpense(l, id), date, category, description, amount, receiptPhoto);
            r.lastId != id && !HasId(r.expenses, id)
  {
  }

  // ----------------------------------------------------------- listing expenses

  /** `ORDER BY date DESC`: dates never increase along the listing. */
  predicate SortedByDateDesc(rows: seq<Expense>) {
    forall i, j :: 0 <= i < j < |rows| ==> OnOrBefore(rows[j].date, rows[i].date)
  }

  /** No row of `rows` is later than `d`. */
  predicate NoLaterThan(rows: seq<Expense>, d: Date) {
    forall k :: 0 <= k < |rows| ==> OnOrBefore(rows[k].date, d)
  }

  lemma SortedTail(rows: seq<Expense>)
    requires rows != [] && SortedByDateDesc(rows)
    ensures SortedByDateDesc(rows[1..]) && NoLaterThan(rows[1..], rows[0].date)
  {
    var tail := rows[1..];
    forall a, b | 0 <= a < b < |tail| ensures OnOrBefore(tail[b].date, tail[a].date) {
      assert tail[a] == rows[a + 1] && tail[b] == rows[b + 1];
    }
    forall k | 0 <= k < |tail| ensures OnOrBefore(tail[k].date, rows[0].date) {
      assert tail[k] == rows[k + 1];
    }
  }

  /** A row no earlier than the head of a date-descending listing can go in front of it. */
  lemma SortedCons(x: Expense, rest: seq<Expense>)
    requires SortedByDateDesc(rest)
    requires rest != [] ==> OnOrBefore(rest[0].date, x.date)
    ensures SortedByDateDesc([x] + rest)
  {
    var s := [x] + rest;
    forall i, j | 0 <= i < j < |s| ensures OnOrBefore(s[j].date, s[i].date) {
      assert s[j] == rest[j - 1];
      if i > 0 { assert s[i] == rest[i - 1]; }
      else if j > 1 { assert OnOrBefore(rest[j - 1].date, rest[0].date); }
    }
  }

  /** Puts `e` into a listing whose dates do not increase, ahead of rows of its own date. */
  function InsertByDate(e: Expense, rows: seq<Expense>): (r: seq<Expense>)
    requires SortedByDateDesc(rows)
    ensures SortedByDateDesc(r)
    ensures multiset(r) == multiset(rows) + multiset{e}
    ensures |r| == |rows| + 1 && (r[0] == e || (rows != [] && r[0] == rows[0]))
  {
    if rows == [] then [e]
    else if OnOrBefore(rows[0].date, e.date) then
      SortedCons(e, rows);
      [e] + rows
    else
      SortedTail(rows);
      var rest := InsertByDate(e, rows[1..]);
      SortedCons(rows[0], rest);
      assert rows == [rows[0]] + rows[1..];
      [rows[0]] + rest
  }

  /** The rows of `rows`, each exactly once, latest date first. */
  function SortByDateDesc(rows: seq<Expense>): (r: seq<Expense>)
    ensures SortedByDateDesc(r)
    ensures multiset(r) == multiset(rows)
  {
    if rows == [] then []
    else
      assert rows == [rows[0]] + rows[1..];
      InsertByDate(rows[0], SortByDateDesc(rows[1..]))
  }

  // ------------------------------------------------------------ budget goals

  /**
   * `INSERT ... ON CONFLICT(category) DO UPDATE`: the goal row of `category` gets the
   * new limit in its place, or a new row is appended when there is none.
   */
  function UpsertGoal(goals: seq<BudgetGoal>, category: string, limit: real): (r: seq<BudgetGoal>)
    ensures LimitOf(r, category) == Some(limit)
    ensures forall c :: c != category ==> LimitOf(r, c) == LimitOf(goals, c)
    ensures !HasCategory(goals, category) ==> r == goals + [BudgetGoal(category, limit)]
  {
    if goals == [] then [BudgetGoal(category, limit)]
    else if goals[0].category == category then [BudgetGoal(category, limit)] + goals[1..]
    else
      assert !HasCategory(goals, category) ==> !HasCategory(goals[1..], category) by {
        if HasCategory(goals[1..], category) {
          var i :| 0 <= i < |goals[1..]| && goals[1..][i].category == category;
          assert goals[i + 1] == goals[1..][i];
        }
      }
      var rest := UpsertGoal(goals[1..], category, limit);
      assert ([goals[0]] + rest)[1..] == rest;
      [goals[0]] + rest
  }

  /** The upsert rewrites the category's row where it stands; no other row moves. */
  lemma {:induction false} UpsertGoalInPlace(goals: seq<BudgetGoal>, category: string, limit: real, i: nat)
    requires i < |goals| && goals[i].category == category
    requires forall j :: 0 <= j < i ==> goals[j].category != category
    ensures UpsertGoal(goals, category, limit) == goals[i := BudgetGoal(category, limit)]
  {
    if i > 0 {
      forall j | 0 <= j < i - 1 ensures goals[1..][j].category != category {
        assert goals[1..][j] == goals[j + 1];
      }
      UpsertGoalInPlace(goals[1..], category, limit, i - 1);
      assert goals[i := BudgetGoal(category, limit)]
        == [goals[0]] + goals[1..][i - 1 := BudgetGoal(category, limit)];
    }
  }

  /** The categories of the goal rows. */
  function Categories(goals: seq<BudgetGoal>): (cs: set<string>)
    ensures forall c :: c in cs <==> HasCategory(goals, c)
  {
    set i | 0 <= i < |goals| :: goals[i].category
  }

  lemma CategoriesCons(goals: seq<BudgetGoal>)
    requires goals != []
    ensures Categories(goals) == {goals[0].category} + Categories(goals[1..])
  {
    var tail := goals[1..];
    forall c | c in Categories(goals) ensures c in {goals[0].category} + Categories(tail) {
      var k :| 0 <= k < |goals| && goals[k].category == c;
      if k > 0 { assert tail[k - 1] == goals[k]; }
    }
    forall c | c in Categories(tail) ensures c in Categories(goals) {
      var k :| 0 <= k < |tail| && tail[k].category == c;
      assert goals[k + 1] == tail[k];
    }
  }

  /** Goal rows are distinct when the head's category is new to the tail and the tail is distinct. */
  lemma DistinctCons(goals: seq<BudgetGoal>)
    requires goals != []
    ensures DistinctCategories(goals) <==>
      DistinctCategories(goals[1..]) && goals[0].category !in Categories(goals[1..])
  {
    var tail := goals[1..];
    if DistinctCategories(goals) {
      forall a, b | 0 <= a < b < |tail| ensures tail[a].category != tail[b].category {
        assert tail[a] == goals[a + 1] && tail[b] == goals[b + 1];
      }
      forall j | 0 <= j < |tail| ensures tail[j].category != goals[0].category {
        assert goals[j + 1] == tail[j];
      }
    }
    if DistinctCategories(tail) && goals[0].category !in Categories(tail) {
      forall a, b | 0 <= a < b < |goals| ensures goals[a].category != goals[b].category {
        assert goals[b] == tail[b - 1];
        if a > 0 { assert goals[a] == tail[a - 1]; }
        else { assert goals[b].category in Categories(tail); }
      }
    }
  }

  /** An upsert adds its category to the set of categories that have a goal, and only it. */
  lemma {:induction false} UpsertGoalCategories(goals: seq<BudgetGoal>, category: string, limit: real)
    ensures Categories(UpsertGoal(goals, category, limit)) == Categories(goals) + {category}
  {
    var r := UpsertGoal(goals, category, limit);
    if goals == [] {
      assert Categories(r) == {category} by { CategoriesCons(r); }
    } else {
      CategoriesCons(goals);
      CategoriesCons(r);
      if goals[0].category != category {
        UpsertGoalCategories(goals[1..], category, limit);
        assert r[1..] == UpsertGoal(goals[1..], category, limit);
      } else {
        assert r[1..] == goals[1..];
      }
    }
  }

  /** An upsert keeps the primary key: each category still has at most one goal row. */
  lemma {:induction false} UpsertGoalDistinct(goals: seq<BudgetGoal>, category: string, limit: real)
    requires DistinctCategories(goals)
    ensures DistinctCategories(UpsertGoal(goals, category, limit))
  {
    var r := UpsertGoal(goals, category, limit);
    if goals != [] {
      DistinctCons(goals);
      DistinctCons(r);
      if goals[0].category != category {
        UpsertGoalDistinct(goals[1..], category, limit);
        UpsertGoalCategories(goals[1..], category, limit);
        assert r[1..] == UpsertGoal(goals[1..], category, limit);
      } else {
        assert r[1..] == goals[1..];
      }
    }
  }

  /** Setting the same goal twice leaves the table as setting it once. */
  lemma {:induction false} UpsertGoalIdempotent(goals: seq<BudgetGoal>, category: string, limit: real)
    ensures UpsertGoal(UpsertGoal(goals, category, limit), category, limit) == UpsertGoal(goals, category, limit)
  {
    if goals != [] && goals[0].category != category {
      UpsertGoalIdempotent(goals[1..], category, limit);
      var once := UpsertGoal(goals, category, limit);
      assert once[1..] == UpsertGoal(goals[1..], category, limit);
    }
  }

  /** A later limit for a category replaces an earlier one: upsert, not append. */
  lemma {:induction false} UpsertGoalOverwrites(goals: seq<BudgetGoal>, category: string, first: real, second: real)
    ensures UpsertGoal(UpsertGoal(goals, category, first), category, second) == UpsertGoal(goals, category, second)
  {
    if goals != [] && goals[0].category != category {
      UpsertGoalOverwrites(goals[1..], category, first, second);
      var once := UpsertGoal(goals, category, first);
      assert once[1..] == UpsertGoal(goals[1..], category, first);
    }
  }

  /** `DELETE FROM budget_goals WHERE category = ?`: a no-op when there is no such goal. */
  function RemoveGoal(goals: seq<BudgetGoal>, category: string): (r: seq<BudgetGoal>)
    ensures forall g :: g in r <==> g in goals && g.category != category
    ensures !HasCategory(goals, category) ==> r == goals
  {
    if goals == [] then []
    else
      assert HasCategory(goals[1..], category) ==> HasCategory(goals, category) by {
        if HasCategory(goals[1..], category) {
          var i :| 0 <= i < |goals[1..]| && goals[1..][i].category == category;
          assert goals[i + 1].category == category;
        }
      }
      if goals[0].category == category then RemoveGoal(goals[1..], category)
      else [goals[0]] + RemoveGoal(goals[1..], category)
  }

  /** With one row per category, removing the category of row `i` takes out that row and no other. */
  lemma {:induction false} RemoveGoalRemovesRow(goals: seq<BudgetGoal>, i: nat)
    requires DistinctCategories(goals)
    requires i < |goals|
    ensures RemoveGoal(goals, goals[i].category) == goals[..i] + goals[i + 1..]
  {
    var tail := goals[1..];
    var category := goals[i].category;
    DistinctCons(goals);
    if i == 0 {
      assert !HasCategory(tail, category);
      assert goals[..i] + goals[i + 1..] == tail;
    } else {
      assert tail[i - 1] == goals[i];
      assert goals[0].category != category;
      RemoveGoalRemovesRow(tail, i - 1);
      SpliceAfterHead(goals, i);
    }
  }

  /** Removing a goal keeps the primary key and takes exactly its category out of the set. */
  lemma {:induction false} RemoveGoalDistinct(goals: seq<BudgetGoal>, category: string)
    requires DistinctCategories(goals)
    ensures DistinctCategories(RemoveGoal(goals, category))
    ensures Categories(RemoveGoal(goals, category)) == Categories(goals) - {category}
  {
    var r := RemoveGoal(goals, category);
    if goals != [] {
      DistinctCons(goals);
      CategoriesCons(goals);
      RemoveGoalDistinct(goals[1..], category);
      if goals[0].category != category {
        assert r[1..] == RemoveGoal(goals[1..], category);
        DistinctCons(r);
        CategoriesCons(r);
      }
    }
  }

  /** Removing a goal takes out that category's limit and keeps every other limit. */
  lemma {:induction false} RemoveGoalLimits(goals: seq<BudgetGoal>, category: string)
    ensures LimitOf(RemoveGoal(goals, category), category) == None
    ensures forall c :: c != category ==> LimitOf(RemoveGoal(goals, category), c) == LimitOf(goals, c)
  {
    if goals != [] {
      RemoveGoalLimits(goals[1..], category);
      if goals[0].category == category {
        forall c | c != category ensures LimitOf(goals[1..], c) == LimitOf(goals, c) {}
      }
    }
  }
}
