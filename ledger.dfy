/**
 * The expense handlers of api/routers/expenses.py as functions from a store
 * snapshot and a request to the next snapshot and the response: the reference
 * definitions the imperative handlers in module Expenses are proved against.
 * Every function keeps the source's order of checks, and a step that the
 * source commits before a later check fails stays committed.
 */
module Ledger {
  import opened Results
  import opened Errors
  import opened Currency
  import opened Store
  import opened Charges

  /** The default of ExpenseCreate.account_name. */
  const DefaultAccount: string := "Checking"

  /** The body of POST /expenses/ (ExpenseCreate). */
  datatype NewExpense = NewExpense(
    amount: real,
    currency: string,
    category: string,
    description: Option<string>,
    accountName: string,
    date: Option<Date>)

  /** A request that names only the three required fields; the rest take their defaults. */
  function MinimalExpense(amount: real, currency: string, category: string): (x: NewExpense)
    ensures x.accountName == DefaultAccount && x.description.None? && x.date.None?
  {
    NewExpense(amount, currency, category, None, DefaultAccount, None)
  }

  /** The body of PUT /expenses/{id} (ExpenseUpdate); account_name cannot change. */
  datatype ExpenseUpdate = ExpenseUpdate(
    amount: Option<real>,
    currency: Option<string>,
    category: Option<string>,
    description: Option<string>,
    date: Option<Date>)

  datatype AddReceipt = AddReceipt(id: ExpenseId, expense: Expense, balance: real)
  datatype UpdateReceipt = UpdateReceipt(expense: Expense, balance: real)

  /** Python truthiness of an optional string field: present and non-empty. */
  predicate Given(s: Option<string>) {
    s.Some? && s.value != ""
  }

  predicate OwnedBy(c: Collections, uid: UserId, id: ExpenseId) {
    id in c.expenses && c.expenses[id].userId == uid
  }

  // ---------------------------------------------------------------- add_expense

  /** The document add_expense inserts: upper-cased currency, user_id, date defaulted to now. */
  function Recorded(uid: UserId, x: NewExpense, now: Date): (e: Expense)
    ensures e.userId == uid && e.amount == x.amount && e.currency == Upper(x.currency)
    ensures e.category == x.category && e.accountName == x.accountName && e.description == x.description
    ensures e.date == if x.date.Some? then x.date.value else now
  {
    Expense(uid, x.amount, Upper(x.currency), x.category, x.accountName, x.description, x.date.GetOr(now))
  }

  function Add(c: Collections, rates: Converter, now: Date, uid: UserId, x: NewExpense): (out: (Collections, Result<AddReceipt, Error>))
    ensures out.1.Err? ==> out.0 == c
    ensures out.0.users == c.users && out.0.accounts.Keys == c.accounts.Keys
    ensures c.Valid() ==> out.0.Valid()
  {
    var k := AccountKey(uid, x.accountName);
    if k !in c.accounts then (c, Err(InvalidAccountType))
    else if uid !in c.users then (c, Err(UserNotFound))
    else
      var user, account, cur := c.users[uid], c.accounts[k], Upper(x.currency);
      if cur !in user.currencies then (c, Err(CurrencyNotAllowed))
      else match Convert(rates, x.amount, cur, account.currency)
        case Err(err) => (c, Err(err))
        case Ok(converted) =>
          if account.balance < converted then (c, Err(InsufficientBalance))
          else if user.categories.None? then (c, Err(CategoriesMissing))
          else if x.category !in user.categories.value then (c, Err(CategoryNotPresent))
          else
            var e := Recorded(uid, x, now);
            var balance := account.balance - converted;
            (c.(accounts := c.accounts[k := account.(balance := balance)],
                expenses := c.expenses[c.nextId := e],
                nextId := c.nextId + 1),
             Ok(AddReceipt(c.nextId, e, balance)))
  }

  // ---------------------------------------------------------------- get_expense

  function Get(c: Collections, uid: UserId, id: ExpenseId): (r: Result<Expense, Error>)
    ensures r.Ok? <==> OwnedBy(c, uid, id)
    ensures r.Ok? ==> r.value == c.expenses[id] && r.value.userId == uid
    ensures r.Err? ==> r.error == ExpenseNotFound
  {
    if OwnedBy(c, uid, id) then Ok(c.expenses[id]) else Err(ExpenseNotFound)
  }

  // ---------------------------------------------------------------- delete_expense

  function Delete(c: Collections, rates: Converter, uid: UserId, id: ExpenseId): (out: (Collections, Result<real, Error>))
    ensures out.1.Err? ==> out.0 == c
    ensures out.0.users == c.users && out.0.accounts.Keys == c.accounts.Keys && out.0.nextId == c.nextId
    ensures c.Valid() ==> out.0.Valid()
  {
    if !OwnedBy(c, uid, id) then (c, Err(ExpenseNotFound))
    else
      var e := c.expenses[id];
      var k := AccountKey(uid, e.accountName);
      if k !in c.accounts then (c, Err(AccountNotFound))
      else
        var account := c.accounts[k];
        match Convert(rates, e.amount, e.currency, account.currency)
        case Err(err) => (c, Err(err))
        case Ok(refund) =>
          var balance := account.balance + refund;
          (c.(accounts := c.accounts[k := account.(balance := balance)],
              expenses := c.expenses - {id}),
           Ok(balance))
  }

  // ---------------------------------------------------------------- update_expense

  /** The currency the new amount is denominated in: the validated new one, else the stored one. */
  function NewCurrency(e: Expense, u: ExpenseUpdate): (r: Code)
    ensures Given(u.currency) ==> r == Upper(u.currency.value) && forall i :: 0 <= i < |r| ==> !('a' <= r[i] <= 'z')
    ensures !Given(u.currency) ==> r == e.currency
  {
    if Given(u.currency) then Upper(u.currency.value) else e.currency
  }

  /**
   * validate_amount: the account balance after the update. With no amount it
   * is the current balance; otherwise the balance minus the difference
   * between the new and the old converted amounts, refused when negative.
   */
  function Rebalanced(rates: Converter, e: Expense, u: ExpenseUpdate, account: Account): (r: Result<real, Error>)
    ensures u.amount.None? ==> r == Ok(account.balance)
    ensures r.Ok? ==> r.value >= 0.0 || u.amount.None?
    ensures r.Err? ==> r.error in {ConversionFailed, InsufficientBalance}
  {
    if u.amount.None? then Ok(account.balance)
    else match Convert(rates, e.amount, e.currency, account.currency)
      case Err(err) => Err(err)
      case Ok(original) =>
        match Convert(rates, u.amount.value, NewCurrency(e, u), account.currency)
        case Err(err) => Err(err)
        case Ok(revised) =>
          var balance := account.balance - (revised - original);
          if balance < 0.0 then Err(InsufficientBalance) else Ok(balance)
  }

  /** The update_fields dict applied with $set: each truthy field replaces the stored one. */
  function Revised(e: Expense, u: ExpenseUpdate): (e': Expense)
    ensures e'.userId == e.userId && e'.accountName == e.accountName
    ensures e'.amount == if u.amount.Some? then u.amount.value else e.amount
    ensures e'.currency == NewCurrency(e, u)
    ensures e'.category == if Given(u.category) then u.category.value else e.category
    ensures e'.description == if Given(u.description) then u.description else e.description
    ensures e'.date == if u.date.Some? then u.date.value else e.date
  {
    e.(amount := if u.amount.Some? then u.amount.value else e.amount,
       currency := NewCurrency(e, u),
       category := if Given(u.category) then u.category.value else e.category,
       description := if Given(u.description) then u.description else e.description,
       date := if u.date.Some? then u.date.value else e.date)
  }

  /** update_fields ends up non-empty. */
  predicate HasFields(u: ExpenseUpdate): (h: bool)
    ensures u.amount.Some? || u.date.Some? ==> h
    ensures !h ==> forall e :: Revised(e, u) == e
  {
    u.amount.Some? || Given(u.currency) || Given(u.category) || Given(u.description) || u.date.Some?
  }

  function Update(c: Collections, rates: Converter, uid: UserId, id: ExpenseId, u: ExpenseUpdate): (out: (Collections, Result<UpdateReceipt, Error>))
    ensures out.1.Err? ==> out.0.expenses == c.expenses
    ensures out.0.users == c.users && out.0.accounts.Keys == c.accounts.Keys && out.0.nextId == c.nextId
    ensures out.0.expenses.Keys == c.expenses.Keys
    ensures out.1.Ok? ==> OwnedBy(c, uid, id) && out.1.value.expense == Revised(c.expenses[id], u)
                          && out.0.expenses == c.expenses[id := Revised(c.expenses[id], u)]
    ensures c.Valid() ==> out.0.Valid()
  {
    if uid !in c.users then (c, Err(UserNotFound))
    else if !OwnedBy(c, uid, id) then (c, Err(ExpenseNotFound))
    else
      var user, e := c.users[uid], c.expenses[id];
      if Given(u.currency) && Upper(u.currency.value) !in user.currencies then (c, Err(CurrencyNotAllowed))
      else
        var k := AccountKey(uid, e.accountName);
        if k !in c.accounts then (c, Err(AccountNotFound))
        else
          var account := c.accounts[k];
          match Rebalanced(rates, e, u, account)
          case Err(err) => (c, Err(err))
          case Ok(balance) =>
            // the new balance is written before the remaining checks
            var c1 := if u.amount.Some? then c.(accounts := c.accounts[k := account.(balance := balance)]) else c;
            if Given(u.category) && user.categories.None? then (c1, Err(CategoriesMissing))
            else if Given(u.category) && u.category.value !in user.categories.value then (c1, Err(CategoryNotPresent))
            else if !HasFields(u) then (c1, Err(NoFieldsToUpdate))
            else
              var e' := Revised(e, u);
              if e' == e then (c1, Err(UpdateNotApplied))
              else (c1.(expenses := c1.expenses[id := e']), Ok(UpdateReceipt(e', balance)))
  }

  // ---------------------------------------------------------------- delete_all_expenses

  /** The ids below n of the user's expenses. */
  function OwnedBelow(es: map<ExpenseId, Expense>, uid: UserId, n: nat): (ids: set<ExpenseId>)
    ensures forall id :: id in ids <==> id < n && id in es && es[id].userId == uid
  {
    set id | id in es && id < n && es[id].userId == uid
  }

  /** Each of the user's accounts credited with the raw, unconverted sum of its expenses' amounts. */
  function Refunded(accounts: map<AccountKey, Account>, es: map<ExpenseId, Expense>, n: nat, uid: UserId): (r: map<AccountKey, Account>)
    ensures r.Keys == accounts.Keys
    ensures forall k :: k in r ==> r[k].currency == accounts[k].currency
    ensures forall k :: k in r && k.owner != uid ==> r[k] == accounts[k]
  {
    map k | k in accounts ::
      if k.owner == uid then accounts[k].(balance := accounts[k].balance + Charged(Raw, es, uid, k.name, n))
      else accounts[k]
  }

  function DeleteAll(c: Collections, uid: UserId): (out: (Collections, Result<nat, Error>))
    ensures out.1.Err? ==> out.0 == c
    ensures out.0.users == c.users && out.0.nextId == c.nextId
    ensures c.Valid() ==> out.0.Valid()
  {
    var owned := OwnedBelow(c.expenses, uid, c.nextId);
    if owned == {} then (c, Err(NoExpensesFound))
    else
      (c.(accounts := Refunded(c.accounts, c.expenses, c.nextId, uid),
          expenses := map id | id in c.expenses && c.expenses[id].userId != uid :: c.expenses[id]),
       Ok(|owned|))
  }

  // ---------------------------------------------------------------- import_expenses_from_csv

  /** One CSV row after parsing; `date` is None when the cell is empty or does not parse (NaT). */
  datatype CsvRow = CsvRow(
    description: Option<string>,
    amount: Option<real>,
    currency: Option<string>,
    category: Option<string>,
    accountName: Option<string>,
    date: Option<Date>)

  datatype CsvTable = CsvTable(columns: set<string>, rows: seq<CsvRow>)

  /** The upload: its content type and the parsed table, None when decoding or parsing raised. */
  datatype CsvUpload = CsvUpload(contentType: string, table: Option<CsvTable>)

  const RequiredColumns: set<string> := {"description", "amount", "currency", "category", "account_name", "date"}

  predicate IsComplete(row: CsvRow) {
    row.description.Some? && row.amount.Some? && row.currency.Some? &&
    row.category.Some? && row.accountName.Some? && row.date.Some?
  }

  /** dropna(subset=required_fields): the complete rows, in their order. */
  function Complete(rows: seq<CsvRow>): (kept: seq<CsvRow>)
    ensures forall i :: 0 <= i < |kept| ==> IsComplete(kept[i])
    ensures |kept| <= |rows|
    decreases |rows|
  {
    if rows == [] then [] else (if IsComplete(rows[0]) then [rows[0]] else []) + Complete(rows[1..])
  }

  /** The filter keeps file order: the complete rows of a concatenation are those of each part, in turn. */
  lemma {:induction false} CompleteKeepsOrder(a: seq<CsvRow>, b: seq<CsvRow>)
    ensures Complete(a + b) == Complete(a) + Complete(b)
    decreases |a|
  {
    if a != [] {
      assert (a + b)[1..] == a[1..] + b;
      CompleteKeepsOrder(a[1..], b);
    } else {
      assert a + b == b;
    }
  }

  /** No complete row is dropped and nothing is duplicated: each complete row is kept as often as it occurs. */
  lemma {:induction false} CompleteKeepsCompleteRows(rows: seq<CsvRow>, r: CsvRow)
    ensures multiset(Complete(rows))[r] == if IsComplete(r) then multiset(rows)[r] else 0
    decreases |rows|
  {
    if rows != [] {
      assert rows == [rows[0]] + rows[1..];
      CompleteKeepsCompleteRows(rows[1..], r);
    }
  }

  predicate KnownAccount(accounts: map<AccountKey, Account>, uid: UserId, row: CsvRow) {
    row.accountName.Some? && AccountKey(uid, row.accountName.value) in accounts
  }

  /** The index of the first row whose account does not exist, or |rows| when all do. */
  function FirstUnknownAccount(accounts: map<AccountKey, Account>, uid: UserId, rows: seq<CsvRow>): (j: nat)
    ensures j <= |rows|
    ensures forall i :: 0 <= i < j ==> KnownAccount(accounts, uid, rows[i])
    ensures j < |rows| ==> !KnownAccount(accounts, uid, rows[j])
    decreases |rows|
  {
    if rows == [] || !KnownAccount(accounts, uid, rows[0]) then 0
    else 1 + FirstUnknownAccount(accounts, uid, rows[1..])
  }

  /** The document inserted for a complete row. */
  function Imported(uid: UserId, row: CsvRow): (e: Expense)
    requires IsComplete(row)
    ensures e.userId == uid && e.amount == row.amount.value && e.currency == Upper(row.currency.value)
    ensures e.category == row.category.value && e.accountName == row.accountName.value
    ensures e.description == row.description && e.date == row.date.value
  {
    Expense(uid, row.amount.value, Upper(row.currency.value), row.category.value,
            row.accountName.value, row.description, row.date.value)
  }

  /** The rows inserted one by one under consecutive fresh ids starting at `first`. */
  function Inserted(uid: UserId, rows: seq<CsvRow>, first: nat): (m: map<ExpenseId, Expense>)
    requires forall i :: 0 <= i < |rows| ==> IsComplete(rows[i])
    ensures forall id :: id in m <==> first <= id < first + |rows|
    ensures forall i :: 0 <= i < |rows| ==> m[first + i] == Imported(uid, rows[i])
    decreases |rows|
  {
    if rows == [] then map[]
    else
      var last := |rows| - 1;
      Inserted(uid, rows[..last], first)[first + last := Imported(uid, rows[last])]
  }

  /** One more imported row: the store grows by exactly that row's document at the next id. */
  lemma ImportStep(uid: UserId, rows: seq<CsvRow>, stored: map<ExpenseId, Expense>, first: nat, i: nat)
    requires forall t :: 0 <= t < |rows| ==> IsComplete(rows[t])
    requires i < |rows|
    ensures stored + Inserted(uid, rows[..i + 1], first)
         == (stored + Inserted(uid, rows[..i], first))[first + i := Imported(uid, rows[i])]
  {
    assert rows[..i + 1][..i] == rows[..i];
  }

  function Import(c: Collections, uid: UserId, upload: CsvUpload): (out: (Collections, Result<(), Error>))
    ensures out.0.users == c.users && out.0.accounts == c.accounts
    ensures out.0.nextId >= c.nextId
    ensures c.Valid() ==> out.0.Valid()
  {
    if upload.contentType != "text/csv" then (c, Err(NotCsv))
    else if upload.table.None? || !(RequiredColumns <= upload.table.value.columns) then (c, Err(CsvFailed))
    else
      var kept := Complete(upload.table.value.rows);
      var j := FirstUnknownAccount(c.accounts, uid, kept);
      (c.(expenses := c.expenses + Inserted(uid, kept[..j], c.nextId), nextId := c.nextId + j),
       if j < |kept| then Err(CsvFailed) else Ok(()))
  }
}
