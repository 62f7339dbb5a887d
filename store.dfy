/**
 * The three MongoDB collections the routers share (users, accounts,
 * expenses) and the documents they hold, as Dafny values; the Database
 * class is the mutable store the handlers read and overwrite.
 */
module Store {
  import opened Results
  import opened Currency

  type UserId = string
  /** Stands in for the ObjectId MongoDB assigns on insert. */
  type ExpenseId = nat
  /** A timestamp; the source uses datetime. */
  type Date = int

  /** One value of user["categories"]: {"monthly_budget": ...}. */
  datatype Category = Category(monthlyBudget: real)

  /** The parts of a user document the routers read; `categories` may be absent. */
  datatype User = User(currencies: set<Code>, categories: Option<map<string, Category>>)

  /** Accounts are looked up by {"user_id", "name"}. */
  datatype AccountKey = AccountKey(owner: UserId, name: string)

  datatype Account = Account(balance: real, currency: Code)

  datatype Expense = Expense(
    userId: UserId,
    amount: real,
    currency: Code,
    category: string,
    accountName: string,
    description: Option<string>,
    date: Date)

  /** A snapshot of the store: the three collections and the next fresh expense id. */
  datatype Collections = Collections(
    users: map<UserId, User>,
    accounts: map<AccountKey, Account>,
    expenses: map<ExpenseId, Expense>,
    nextId: nat)
  {
    /** Every stored expense id was handed out before: fresh ids are never in use. */
    predicate Valid() {
      forall id :: id in expenses ==> id < nextId
    }
  }

  class Database {
    var users: map<UserId, User>
    var accounts: map<AccountKey, Account>
    var expenses: map<ExpenseId, Expense>
    var nextId: nat

    function Snapshot(): (c: Collections)
      reads this
      ensures c.users == users && c.accounts == accounts && c.expenses == expenses && c.nextId == nextId
    {
      Collections(users, accounts, expenses, nextId)
    }

    /** A store with the given users and accounts and no expenses yet. */
    constructor (users: map<UserId, User>, accounts: map<AccountKey, Account>)
      ensures Snapshot() == Collections(users, accounts, map[], 0)
      ensures Snapshot().Valid()
    {
      this.users := users;
      this.accounts := accounts;
      this.expenses := map[];
      this.nextId := 0;
    }
  }
}
