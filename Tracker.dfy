/**
 * The tracker's state and the operations on it: the credential table in `users.db`,
 * the per-user store files (one ledger per file name), and the session's
 * `authenticated`/`username` pair, with the handlers of the login, sign-up, logout and
 * account-deletion controls that change them.
 */
module Tracker {
  import opened Wrappers
  import opened Dates
  import Ledger

  /** The store file of a user: `expenses_<username>.db`. */
  function StoreName(username: string): string {
    "expenses_" + username + ".db"
  }

  /** Store names are injective: two users never share a ledger. */
  lemma StoreNameInjective(a: string, b: string)
    requires StoreName(a) == StoreName(b)
    ensures a == b
  {
    var s := StoreName(a);
    assert |a| == |b|;
    assert s[9..9 + |a|] == a;
    assert StoreName(b)[9..9 + |b|] == b;
  }

  /** Replacing one user's ledger leaves every other user's ledger as it was. */
  lemma LedgersIsolated(stores: map<string, Ledger.Ledger>, owner: string, other: string, l: Ledger.Ledger)
    requires owner != other
    ensures StoreName(other) in stores[StoreName(owner) := l] <==> StoreName(other) in stores
    ensures StoreName(other) in stores ==> stores[StoreName(owner) := l][StoreName(other)] == stores[StoreName(other)]
  {
    if StoreName(owner) == StoreName(other) {
      StoreNameInjective(owner, other);
    }
  }

  /** The messages of the sign-up form. */
  datatype SignupOutcome = Registered | PasswordMismatch | UsernameTaken

  /** The messages of the account-deletion control. */
  datatype DeletionOutcome = AccountDeleted | UsernameMissing | DeletionFailed

  class ExpenseTracker {
    /** SHA-256 hex digest of a password, left uninterpreted. */
    const hash: string -> string
    /** `users.db`: username to password hash; the UNIQUE username is the key. */
    var users: map<string, string>
    /** The store files: file name to ledger. */
    var stores: map<string, Ledger.Ledger>
    /** `st.session_state.authenticated` and `st.session_state.username`. */
    var authenticated: bool
    var username: string

    ghost predicate Valid()
      reads this
    {
      (forall f :: f in stores ==> Ledger.Valid(stores[f]))
      && (!authenticated ==> username == "")
    }

    /**
     * Start of a session: `init_user_db` creates an empty credential table when the file
     * is missing (`savedUsers` is None) and keeps an existing one; the session starts
     * unauthenticated with an empty username.
     */
    constructor (hash: string -> string, savedUsers: Option<map<string, string>>,
                 savedStores: map<string, Ledger.Ledger>)
      requires forall f :: f in savedStores ==> Ledger.Valid(savedStores[f])
      ensures Valid() && this.hash == hash
      ensures users == (if savedUsers.Some? then savedUsers.value else map[])
      ensures stores == savedStores
      ensures !authenticated && username == ""
    {
      this.hash := hash;
      users := if savedUsers.Some? then savedUsers.value else map[];
      stores := savedStores;
      authenticated := false;
      username := "";
    }

    // ---------------------------------------------------------- credentials

    /** `verify_password`: the stored hash is the hash of the password given. */
    function VerifyPassword(stored: string, provided: string): bool {
      stored == hash(provided)
    }

    /** `signup_user`: the INSERT fails on the UNIQUE username and changes nothing then. */
    method Signup(name: string, password: string) returns (ok: bool)
      modifies this`users
      ensures ok == (name !in old(users))
      ensures users == if ok then old(users)[name := hash(password)] else old(users)
    {
      ok := name !in users;
      if ok {
        users := users[name := hash(password)];
      }
    }

    /**
     * `authenticate_user`: true exactly when the user has a row and its hash is the
     * hash of the password; an unknown user and a wrong password both give false.
     */
    method Authenticate(name: string, password: string) returns (ok: bool)
      ensures ok <==> name in users && users[name] == hash(password)
      ensures name !in users ==> !ok
    {
      if name in users {
        ok := VerifyPassword(users[name], password);
      } else {
        ok := false;
      }
    }

    // ------------------------------------------------------------- ledgers

    /** `init_db`: a missing store gets empty tables; an existing store keeps its data. */
    method InitDb(dbFile: string)
      requires Valid()
      modifies this`stores
      ensures Valid()
      ensures dbFile in stores
      ensures dbFile in old(stores) ==> stores == old(stores)
      ensures dbFile !in old(stores) ==> stores == old(stores)[dbFile := Ledger.Empty()]
    {
      if dbFile !in stores {
        stores := stores[dbFile := Ledger.Empty()];
      }
    }

    /** `add_expense`: appends one row with a fresh AUTOINCREMENT id to the store's table. */
    method AddExpense(dbFile: string, date: Date, category: string, description: string,
                      amount: real, receiptPhoto: Option<string>)
      requires Valid() && dbFile in stores
      modifies this`stores
      ensures Valid()
      ensures stores == old(stores)[dbFile :=
        Ledger.AddExpense(old(stores[dbFile]), date, category, description, amount, receiptPhoto)]
    {
      stores := stores[dbFile := Ledger.AddExpense(stores[dbFile], date, category, description, amount, receiptPhoto)];
    }

    /** `get_expenses`: every row of the store exactly once, latest date first. */
    method GetExpenses(dbFile: string) returns (rows: seq<Ledger.Expense>)
      requires dbFile in stores
      ensures Ledger.SortedByDateDesc(rows)
      ensures multiset(rows) == multiset(stores[dbFile].expenses)
    {
      rows := Ledger.SortByDateDesc(stores[dbFile].expenses);
    }

    /** `delete_expense`: removes the row with that id; nothing happens when there is none. */
    method DeleteExpense(dbFile: string, id: int)
      requires Valid() && dbFile in stores
      modifies this`stores
      ensures Valid()
      ensures stores == old(stores)[dbFile := Ledger.DeleteExpense(old(stores[dbFile]), id)]
    {
      stores := stores[dbFile := Ledger.DeleteExpense(stores[dbFile], id)];
    }

    /** `set_budget_goal`: upserts the category's monthly limit. */
    method SetBudgetGoal(dbFile: string, category: string, monthlyLimit: real)
      requires Valid() && dbFile in stores
      modifies this`stores
      ensures Valid()
      ensures stores == old(stores)[dbFile :=
        old(stores[dbFile]).(goals := Ledger.UpsertGoal(old(stores[dbFile]).goals, category, monthlyLimit))]
    {
      var l := stores[dbFile];
      Ledger.UpsertGoalDistinct(l.goals, category, monthlyLimit);
      stores := stores[dbFile := l.(goals := Ledger.UpsertGoal(l.goals, category, monthlyLimit))];
    }

    /** `get_budget_goals`: the goal rows in table order, one per category. */
    method GetBudgetGoals(dbFile: string) returns (goals: seq<Ledger.BudgetGoal>)
      requires Valid() && dbFile in stores
      ensures goals == stores[dbFile].goals
      ensures Ledger.DistinctCategories(goals)
    {
      goals := stores[dbFile].goals;
    }

    /** `delete_budget_goal`: removes the category's goal; nothing happens when there is none. */
    method DeleteBudgetGoal(dbFile: string, category: string)
      requires Valid() && dbFile in stores
      modifies this`stores
      ensures Valid()
      ensures stores == old(stores)[dbFile :=
        old(stores[dbFile]).(goals := Ledger.RemoveGoal(old(stores[dbFile]).goals, category))]
    {
      var l := stores[dbFile];
      Ledger.RemoveGoalDistinct(l.goals, category);
      stores := stores[dbFile := l.(goals := Ledger.RemoveGoal(l.goals, category))];
    }

    /**
     * `delete_user_account`: removes the user's credential row and store file, whether
     * or not they exist, and reports success. The session is not touched.
     */
    method DeleteUserAccount(name: string) returns (ok: bool)
      requires Valid()
      modifies this`users, this`stores
      ensures Valid() && ok
      ensures users == old(users) - {name}
      ensures stores == old(stores) - {StoreName(name)}
    {
      users := users - {name};
      stores := stores - {StoreName(name)};
      ok := true;
    }

    // ------------------------------------------------------ session handlers

    /** The login form: success authenticates the session as that user; failure changes nothing. */
    method SubmitLogin(name: string, password: string) returns (ok: bool)
      requires Valid()
      modifies this`authenticated, this`username
      ensures Valid()
      ensures ok <==> name in users && users[name] == hash(password)
      ensures ok ==> authenticated && username == name
      ensures !ok ==> authenticated == old(authenticated) && username == old(username)
    {
      ok := Authenticate(name, password);
      if ok {
        authenticated := true;
        username := name;
      }
    }

    /**
     * The sign-up form: a confirmation that differs from the password is refused before
     * the credential table is touched; otherwise `signup_user` decides. The session
     * stays as it is: the user still has to log in.
     */
    method SubmitSignup(newUser: string, newPass: string, confirmPass: string) returns (outcome: SignupOutcome)
      modifies this`users
      ensures newPass != confirmPass ==> outcome == PasswordMismatch && users == old(users)
      ensures newPass == confirmPass && newUser in old(users) ==> outcome == UsernameTaken && users == old(users)
      ensures newPass == confirmPass && newUser !in old(users) ==>
        outcome == Registered && users == old(users)[newUser := hash(newPass)]
    {
      if newPass != confirmPass {
        outcome := PasswordMismatch;
      } else {
        var ok := Signup(newUser, newPass);
        outcome := if ok then Registered else UsernameTaken;
      }
    }

    /** The `logout` query parameter: the value "true" resets the session, anything else is ignored. */
    method CheckLogout(logoutParam: Option<string>) returns (loggedOut: bool)
      requires Valid()
      modifies this`authenticated, this`username
      ensures Valid()
      ensures loggedOut <==> logoutParam == Some("true")
      ensures loggedOut ==> !authenticated && username == ""
      ensures !loggedOut ==> authenticated == old(authenticated) && username == old(username)
    {
      loggedOut := logoutParam == Some("true");
      if loggedOut {
        authenticated := false;
        username := "";
      }
    }

    /** The per-user store setup once authenticated: the session's own store, created if missing. */
    method OpenLedger() returns (dbFile: string)
      requires Valid() && authenticated
      modifies this`stores
      ensures Valid()
      ensures dbFile == StoreName(username) && dbFile in stores
      ensures dbFile in old(stores) ==> stores == old(stores)
      ensures dbFile !in old(stores) ==> stores == old(stores)[dbFile := Ledger.Empty()]
    {
      dbFile := StoreName(username);
      InitDb(dbFile);
    }

    /**
     * The account-deletion control: an empty username is refused; any other typed name,
     * the session's own or not, has its account and store removed. The session is kept.
     */
    method SubmitDeleteAccount(typed: string) returns (outcome: DeletionOutcome)
      requires Valid()
      modifies this`users, this`stores
      ensures Valid()
      ensures typed == "" ==> outcome == UsernameMissing && users == old(users) && stores == old(stores)
      ensures typed != "" ==>
        outcome == AccountDeleted && users == old(users) - {typed} && stores == old(stores) - {StoreName(typed)}
      ensures authenticated == old(authenticated) && username == old(username)
    {
      if typed == "" {
        outcome := UsernameMissing;
      } else {
        var ok := DeleteUserAccount(typed);
        outcome := if ok then AccountDeleted else DeletionFailed;
      }
    }
  }

  /**
   * A session from sign-up to account deletion, showing what callers can conclude from
   * the contracts alone.
   */
  method AccountLifecycle(hash: string -> string, password: string, wrong: string)
    requires hash(wrong) != hash(password)
  {
    var app := new ExpenseTracker(hash, None, map[]);
    var outcome := app.SubmitSignup("alice", password, password);
    assert outcome == Registered && !app.authenticated;
    outcome := app.SubmitSignup("alice", wrong, wrong);
    assert outcome == UsernameTaken && app.users["alice"] == hash(password);
    assert |password + "!"| != |password|;
    outcome := app.SubmitSignup("bob", password, password + "!");
    assert outcome == PasswordMismatch && "bob" !in app.users;

    var ok := app.SubmitLogin("alice", wrong);
    assert !ok && !app.authenticated && app.username == "";
    ok := app.SubmitLogin("alice", password);
    assert ok && app.authenticated && app.username == "alice";

    var file := app.OpenLedger();
    assert file == StoreName("alice") && app.stores[file] == Ledger.Empty();
    app.AddExpense(file, Date(2024, 5, 1), "Food", "lunch", 50.0, None);
    var rows := app.GetExpenses(file);
    assert |multiset(rows)| == 1;

    var deleted := app.SubmitDeleteAccount("alice");
    assert deleted == AccountDeleted && file !in app.stores;
    assert app.authenticated && app.username == "alice";
    ok := app.Authenticate("alice", password);
    assert !ok;
    var reopened := app.OpenLedger();
    assert reopened == file && app.stores[reopened] == Ledger.Empty();
  }
}
