/**
 * The request handlers of api/routers/expenses.py over the shared Database:
 * each reads documents, checks, and overwrites the store step by step as the
 * source does, and is proved to end in the state and response that the
 * reference function of module Ledger gives for the old state.
 * The caller's identity (verify_token) and the clock are parameters.
 */
module Expenses {
  import opened Results
  import opened Errors
  import opened Currency
  import opened Store
  import opened Charges
  import opened Ledger

  method AddExpense(db: Database, rates: Converter, now: Date, uid: UserId, x: NewExpense)
    returns (r: Result<AddReceipt, Error>)
    requires db.Snapshot().Valid()
    modifies db
    ensures (db.Snapshot(), r) == Add(old(db.Snapshot()), rates, now, uid, x)
    ensures db.Snapshot().Valid()
  {
    var k := AccountKey(uid, x.accountName);
    if k !in db.accounts {
      return Err(InvalidAccountType);
    }
    var account := db.accounts[k];
    if uid !in db.users {
      return Err(UserNotFound);
    }
    var user := db.users[uid];
    var currency := Upper(x.currency);
    if currency !in user.currencies {
      return Err(CurrencyNotAllowed);
    }
    var converted := Convert(rates, x.amount, currency, account.currency);
    if converted.Err? {
      return Err(converted.error);
    }
    if account.balance < converted.value {
      return Err(InsufficientBalance);
    }
    if user.categories.None? {
      return Err(CategoriesMissing);
    }
    if x.category !in user.categories.value {
      return Err(CategoryNotPresent);
    }
    // deduct from the account, then record the expense
    var balance := account.balance - converted.value;
    db.accounts := db.accounts[k := account.(balance := balance)];
    var e := Recorded(uid, x, now);
    var id := db.nextId;
    db.expenses := db.expenses[id := e];
    db.nextId := db.nextId + 1;
    return Ok(AddReceipt(id, e, balance));
  }

  function GetExpense(db: Database, uid: UserId, id: ExpenseId): (r: Result<Expense, Error>)
    reads db
    ensures r.Ok? <==> id in db.expenses && db.expenses[id].userId == uid
    ensures r.Ok? ==> r.value == db.expenses[id]
    ensures r.Err? ==> r.error == ExpenseNotFound
  {
    Get(db.Snapshot(), uid, id)
  }

  method DeleteExpense(db: Database, rates: Converter, uid: UserId, id: ExpenseId)
    returns (r: Result<real, Error>)
    requires db.Snapshot().Valid()
    modifies db
    ensures (db.Snapshot(), r) == Delete(old(db.Snapshot()), rates, uid, id)
    ensures db.Snapshot().Valid()
  {
    if id !in db.expenses || db.expenses[id].userId != uid {
      return Err(ExpenseNotFound);
    }
    var e := db.expenses[id];
    var k := AccountKey(uid, e.accountName);
    if k !in db.accounts {
      return Err(AccountNotFound);
    }
    var account := db.accounts[k];
    var refund := Convert(rates, e.amount, e.currency, account.currency);
    if refund.Err? {
      return Err(refund.error);
    }
    var balance := account.balance + refund.value;
    db.accounts := db.accounts[k := account.(balance := balance)];
    db.expenses := db.expenses - {id};
    return Ok(balance);
  }

  method UpdateExpense(db: Database, rates: Converter, uid: UserId, id: ExpenseId, u: ExpenseUpdate)
    returns (r: Result<UpdateReceipt, Error>)
    requires db.Snapshot().Valid()
    modifies db
    ensures (db.Snapshot(), r) == Update(old(db.Snapshot()), rates, uid, id, u)
    ensures db.Snapshot().Valid()
  {
    if uid !in db.users {
      return Err(UserNotFound);
    }
    var user := db.users[uid];
    if id !in db.expenses || db.expenses[id].userId != uid {
      return Err(ExpenseNotFound);
    }
    var e := db.expenses[id];
    // validate_currency
    if Given(u.currency) && Upper(u.currency.value) !in user.currencies {
      return Err(CurrencyNotAllowed);
    }
    var k := AccountKey(uid, e.accountName);
    if k !in db.accounts {
      return Err(AccountNotFound);
    }
    var account := db.accounts[k];
    // validate_amount: the new balance is committed here
    var balance := account.balance;
    if u.amount.Some? {
      var original := Convert(rates, e.amount, e.currency, account.currency);
      if original.Err? {
        return Err(original.error);
      }
      var revised := Convert(rates, u.amount.value, NewCurrency(e, u), account.currency);
      if revised.Err? {
        return Err(revised.error);
      }
      balance := account.balance - (revised.value - original.value);
      if balance < 0.0 {
        return Err(InsufficientBalance);
      }
      db.accounts := db.accounts[k := account.(balance := balance)];
    }
    // validate_category
    if Given(u.category) {
      if user.categories.None? {
        return Err(CategoriesMissing);
      }
      if u.category.value !in user.categories.value {
        return Err(CategoryNotPresent);
      }
    }
    if !HasFields(u) {
      return Err(NoFieldsToUpdate);
    }
    var e' := Revised(e, u);
    if e' == e {
      return Err(UpdateNotApplied);
    }
    db.expenses := db.expenses[id := e'];
    return Ok(UpdateReceipt(e', balance));
  }

  /**
   * The first loop of delete_all_expenses: per account name, the raw sum of
   * the user's expense amounts charged to an existing account; expenses
   * whose account is gone add nothing. Also the ids that will be deleted.
   */
  method AccountAdjustments(accounts: map<AccountKey, Account>, es: map<ExpenseId, Expense>, n: nat, uid: UserId)
    returns (adjustments: map<string, real>, owned: set<ExpenseId>)
    ensures owned == OwnedBelow(es, uid, n)
    ensures forall name :: name in adjustments ==> AccountKey(uid, name) in accounts
    ensures forall name :: AccountKey(uid, name) in accounts ==>
              (if name in adjustments then adjustments[name] else 0.0) == Charged(Raw, es, uid, name, n)
  {
    adjustments, owned := map[], {};
    var id := 0;
    while id < n
      invariant id <= n
      invariant owned == OwnedBelow(es, uid, id)
      invariant forall name :: name in adjustments ==> AccountKey(uid, name) in accounts
      invariant forall name :: AccountKey(uid, name) in accounts ==>
                  (if name in adjustments then adjustments[name] else 0.0) == Charged(Raw, es, uid, name, id)
    {
      if id in es && es[id].userId == uid {
        owned := owned + {id};
        var name := es[id].accountName;
        if AccountKey(uid, name) in accounts {
          var sum := if name in adjustments then adjustments[name] else 0.0;
          adjustments := adjustments[name := sum + es[id].amount];
        }
      }
      id := id + 1;
    }
  }

  method DeleteAllExpenses(db: Database, uid: UserId) returns (r: Result<nat, Error>)
    requires db.Snapshot().Valid()
    modifies db
    ensures (db.Snapshot(), r) == DeleteAll(old(db.Snapshot()), uid)
    ensures db.Snapshot().Valid()
  {
    var adjustments, owned := AccountAdjustments(db.accounts, db.expenses, db.nextId, uid);
    if owned == {} {
      return Err(NoExpensesFound);
    }
    // one $inc per adjusted account
    var pending := adjustments.Keys;
    while pending != {}
      invariant pending <= adjustments.Keys
      invariant db.users == old(db.users) && db.expenses == old(db.expenses) && db.nextId == old(db.nextId)
      invariant db.accounts.Keys == old(db.accounts).Keys
      invariant forall k :: k in db.accounts ==>
                  db.accounts[k] == old(db.accounts)[k].(balance := old(db.accounts)[k].balance +
                    if k.owner == uid && k.name in adjustments && k.name !in pending then adjustments[k.name] else 0.0)
      decreases pending
    {
      var name :| name in pending;
      var k := AccountKey(uid, name);
      db.accounts := db.accounts[k := db.accounts[k].(balance := db.accounts[k].balance + adjustments[name])];
      pending := pending - {name};
    }
    ghost var before := old(db.Snapshot());
    forall k | k in db.accounts
      ensures db.accounts[k] == Refunded(before.accounts, before.expenses, before.nextId, uid)[k]
    {
    }
    assert db.accounts == Refunded(before.accounts, before.expenses, before.nextId, uid);
    db.expenses := map id | id in db.expenses && db.expenses[id].userId != uid :: db.expenses[id];
    assert owned == OwnedBelow(before.expenses, uid, before.nextId);
    assert db.Snapshot() == DeleteAll(before, uid).0;
    return Ok(|owned|);
  }

  /**
   * The row loop of import_expenses_from_csv: insert the rows one by one and
   * stop at the first one whose account does not exist; the rows inserted
   * before it stay inserted.
   */
  method InsertRows(db: Database, uid: UserId, rows: seq<CsvRow>) returns (complete: bool)
    requires db.Snapshot().Valid()
    requires forall t :: 0 <= t < |rows| ==> IsComplete(rows[t])
    modifies db
    ensures db.users == old(db.users) && db.accounts == old(db.accounts)
    ensures var j := FirstUnknownAccount(old(db.accounts), uid, rows);
      && db.expenses == old(db.expenses) + Inserted(uid, rows[..j], old(db.nextId))
      && db.nextId == old(db.nextId) + j
      && complete == (j == |rows|)
    ensures db.Snapshot().Valid()
  {
    ghost var j := FirstUnknownAccount(db.accounts, uid, rows);
    ghost var stored, first := db.expenses, db.nextId;
    var i := 0;
    while i < |rows|
      invariant i <= j <= |rows|
      invariant db.users == old(db.users) && db.accounts == old(db.accounts)
      invariant db.expenses == stored + Inserted(uid, rows[..i], first)
      invariant db.nextId == first + i
    {
      var row := rows[i];
      if AccountKey(uid, row.accountName.value) !in db.accounts {
        assert i == j;
        return false;
      }
      ImportStep(uid, rows, stored, first, i);
      db.expenses := db.expenses[db.nextId := Imported(uid, row)];
      db.nextId := db.nextId + 1;
      i := i + 1;
    }
    return true;
  }

  method ImportExpensesFromCsv(db: Database, uid: UserId, upload: CsvUpload) returns (r: Result<(), Error>)
    requires db.Snapshot().Valid()
    modifies db
    ensures (db.Snapshot(), r) == Import(old(db.Snapshot()), uid, upload)
    ensures db.Snapshot().Valid()
  {
    if upload.contentType != "text/csv" {
      return Err(NotCsv);
    }
    if upload.table.None? || !(RequiredColumns <= upload.table.value.columns) {
      return Err(CsvFailed);
    }
    var rows := Complete(upload.table.value.rows);
    var complete := InsertRows(db, uid, rows);
    // any exception inside the try block surfaces as 500
    r := if complete then Ok(()) else Err(CsvFailed);
  }
}
