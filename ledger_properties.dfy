/**
 * What the expense handlers promise, proved about the reference functions of
 * module Ledger (and so about the handlers of module Expenses, which are
 * proved equal to them).
 *
 * The central quantity is an account's exposure: its balance plus what its
 * owner's live expenses on it are worth in the account's currency. add,
 * delete and a successful update that carries an amount move value between
 * the two terms and keep the sum; delete_all refunds raw amounts, which is
 * guaranteed to settle the exposure when every expense on the account is in
 * its currency (and in general does not).
 */
module LedgerProperties {
  import opened Results
  import opened Errors
  import opened Currency
  import opened Store
  import opened Charges
  import opened Ledger

  function Exposure(rates: Converter, c: Collections, k: AccountKey): real
    requires k in c.accounts
  {
    c.accounts[k].balance + Charged(Settled(rates, c.accounts[k].currency), c.expenses, k.owner, k.name, c.nextId)
  }

  // ---------------------------------------------------------------- add_expense

  /**
   * add_expense succeeds exactly when all five checks pass; a failure changes
   * nothing; a success debits exactly the converted amount (so a balance equal
   * to it ends at 0) and inserts one expense, under a fresh id, for the caller.
   */
  lemma AddOutcome(c: Collections, rates: Converter, now: Date, uid: UserId, x: NewExpense)
    requires c.Valid()
    ensures var (c', r) := Add(c, rates, now, uid, x);
      var k := AccountKey(uid, x.accountName);
      && (r.Err? ==> c' == c)
      && (r.Ok? <==>
            && k in c.accounts
            && uid in c.users
            && Upper(x.currency) in c.users[uid].currencies
            && Convert(rates, x.amount, Upper(x.currency), c.accounts[k].currency).Ok?
            && c.accounts[k].balance >= Convert(rates, x.amount, Upper(x.currency), c.accounts[k].currency).value
            && c.users[uid].categories.Some?
            && x.category in c.users[uid].categories.value)
      && (r.Ok? ==>
            var converted := Convert(rates, x.amount, Upper(x.currency), c.accounts[k].currency).value;
            && c'.Valid()
            && c'.users == c.users
            && r.value.balance == c.accounts[k].balance - converted >= 0.0
            && c'.accounts == c.accounts[k := c.accounts[k].(balance := r.value.balance)]
            && r.value.id !in c.expenses
            && c'.expenses == c.expenses[r.value.id := r.value.expense]
            && r.value.expense == Recorded(uid, x, now)
            && r.value.expense.userId == uid
            && r.value.expense.accountName == x.accountName
            && r.value.expense.date == (if x.date.Some? then x.date.value else now))
  {
  }

  /** Which check fails first, in the source's order. */
  lemma AddCheckOrder(c: Collections, rates: Converter, now: Date, uid: UserId, x: NewExpense)
    ensures var r := Add(c, rates, now, uid, x).1;
      var k := AccountKey(uid, x.accountName);
      && (k !in c.accounts ==> r == Err(InvalidAccountType))
      && (k in c.accounts && uid !in c.users ==> r == Err(UserNotFound))
      && (k in c.accounts && uid in c.users && Upper(x.currency) !in c.users[uid].currencies ==> r == Err(CurrencyNotAllowed))
      && (k in c.accounts && uid in c.users && Upper(x.currency) in c.users[uid].currencies ==>
            match Convert(rates, x.amount, Upper(x.currency), c.accounts[k].currency)
            case Err(_) => r == Err(ConversionFailed)
            case Ok(converted) =>
              && (c.accounts[k].balance < converted ==> r == Err(InsufficientBalance))
              && ((c.accounts[k].balance >= converted && c.users[uid].categories.None?) ==> r == Err(CategoriesMissing))
              && ((c.accounts[k].balance >= converted && c.users[uid].categories.Some?
                   && x.category !in c.users[uid].categories.value) ==> r == Err(CategoryNotPresent)))
  {
  }

  /** Without an account name the expense goes to the "Checking" account. */
  lemma AddDefaultsToChecking(c: Collections, rates: Converter, now: Date, uid: UserId, amount: real, currency: string, category: string)
    ensures var r := Add(c, rates, now, uid, MinimalExpense(amount, currency, category)).1;
      && (AccountKey(uid, "Checking") !in c.accounts ==> r == Err(InvalidAccountType))
      && (r.Ok? ==> r.value.expense.accountName == "Checking" && r.value.expense.date == now
                    && r.value.expense.description.None?)
  {
  }

  lemma AddPreservesExposure(c: Collections, rates: Converter, now: Date, uid: UserId, x: NewExpense, k: AccountKey)
    requires c.Valid() && k in c.accounts
    ensures var c' := Add(c, rates, now, uid, x).0;
      k in c'.accounts && Exposure(rates, c', k) == Exposure(rates, c, k)
  {
    var (c', r) := Add(c, rates, now, uid, x);
    if r.Ok? {
      var n := c.nextId;
      var v := Settled(rates, c.accounts[k].currency);
      ChargedFrame(v, c.expenses, v, c'.expenses, k.owner, k.name, n);
    }
  }

  // ---------------------------------------------------------------- delete_expense

  /**
   * delete_expense succeeds exactly when the caller owns the expense, its
   * account exists and the amount converts; it then refunds exactly the
   * stored amount converted into the account's currency and removes only
   * that expense.
   */
  lemma DeleteOutcome(c: Collections, rates: Converter, uid: UserId, id: ExpenseId)
    ensures var (c', r) := Delete(c, rates, uid, id);
      && (r.Err? ==> c' == c)
      && (!OwnedBy(c, uid, id) ==> r == Err(ExpenseNotFound))
      && (OwnedBy(c, uid, id) && AccountKey(uid, c.expenses[id].accountName) !in c.accounts ==> r == Err(AccountNotFound))
      && ((OwnedBy(c, uid, id) && AccountKey(uid, c.expenses[id].accountName) in c.accounts
           && Convert(rates, c.expenses[id].amount, c.expenses[id].currency,
                      c.accounts[AccountKey(uid, c.expenses[id].accountName)].currency).Err?) ==> r == Err(ConversionFailed))
      && (r.Ok? <==>
            && OwnedBy(c, uid, id)
            && AccountKey(uid, c.expenses[id].accountName) in c.accounts
            && Convert(rates, c.expenses[id].amount, c.expenses[id].currency,
                       c.accounts[AccountKey(uid, c.expenses[id].accountName)].currency).Ok?)
      && (r.Ok? ==>
            var e := c.expenses[id];
            var k := AccountKey(uid, e.accountName);
            && OwnedBy(c, uid, id)
            && k in c.accounts
            && Convert(rates, e.amount, e.currency, c.accounts[k].currency).Ok?
            && r.value == c.accounts[k].balance + Convert(rates, e.amount, e.currency, c.accounts[k].currency).value
            && c'.accounts == c.accounts[k := c.accounts[k].(balance := r.value)]
            && c'.expenses.Keys == c.expenses.Keys - {id}
            && (forall other :: other in c'.expenses ==> c'.expenses[other] == c.expenses[other])
            && c'.users == c.users && c'.nextId == c.nextId)
  {
  }

  lemma DeletePreservesExposure(c: Collections, rates: Converter, uid: UserId, id: ExpenseId, k: AccountKey)
    requires c.Valid() && k in c.accounts
    ensures var c' := Delete(c, rates, uid, id).0;
      k in c'.accounts && Exposure(rates, c', k) == Exposure(rates, c, k)
  {
    var (c', r) := Delete(c, rates, uid, id);
    if r.Ok? {
      var v := Settled(rates, c.accounts[k].currency);
      ChargedOneChange(v, c.expenses, c'.expenses, k.owner, k.name, c.nextId, id);
    }
  }

  /**
   * Adding an expense and deleting it again restores every balance and the
   * expense collection exactly, in any currency: both conversions are the
   * same call on the same stored amount and currency.
   */
  lemma AddThenDeleteRestores(c: Collections, rates: Converter, now: Date, uid: UserId, x: NewExpense)
    requires c.Valid()
    requires Add(c, rates, now, uid, x).1.Ok?
    ensures var (c1, r1) := Add(c, rates, now, uid, x);
      var (c2, r2) := Delete(c1, rates, uid, r1.value.id);
      && r2 == Ok(c.accounts[AccountKey(uid, x.accountName)].balance)
      && c2.accounts == c.accounts
      && c2.expenses == c.expenses
      && c2.users == c.users
  {
    var (c1, r1) := Add(c, rates, now, uid, x);
    var k := AccountKey(uid, x.accountName);
    assert c1.accounts[k := c.accounts[k]] == c.accounts;
    assert c1.expenses - {r1.value.id} == c.expenses;
  }

  // ---------------------------------------------------------------- get_expense

  /** The expense add_expense records can be read back by its owner and by nobody else. */
  lemma AddThenGet(c: Collections, rates: Converter, now: Date, uid: UserId, x: NewExpense, other: UserId)
    requires c.Valid()
    requires Add(c, rates, now, uid, x).1.Ok?
    ensures var (c1, r1) := Add(c, rates, now, uid, x);
      && Get(c1, uid, r1.value.id) == Ok(r1.value.expense)
      && (other != uid ==> Get(c1, other, r1.value.id) == Err(ExpenseNotFound))
  {
  }

  // ---------------------------------------------------------------- update_expense

  /** Which check fails first: user, owner, currency, account, then (after the balance) the category. */
  lemma UpdateCheckOrder(c: Collections, rates: Converter, uid: UserId, id: ExpenseId, u: ExpenseUpdate)
    ensures var (c', r) := Update(c, rates, uid, id, u);
      && (uid !in c.users ==> r == Err(UserNotFound) && c' == c)
      && (uid in c.users && !OwnedBy(c, uid, id) ==> r == Err(ExpenseNotFound) && c' == c)
      && ((uid in c.users && OwnedBy(c, uid, id) && Given(u.currency) && Upper(u.currency.value) !in c.users[uid].currencies)
            ==> r == Err(CurrencyNotAllowed) && c' == c)
      && ((uid in c.users && OwnedBy(c, uid, id) && !(Given(u.currency) && Upper(u.currency.value) !in c.users[uid].currencies)
            && AccountKey(uid, c.expenses[id].accountName) !in c.accounts) ==> r == Err(AccountNotFound) && c' == c)
      && ((uid in c.users && OwnedBy(c, uid, id) && !(Given(u.currency) && Upper(u.currency.value) !in c.users[uid].currencies)
            && AccountKey(uid, c.expenses[id].accountName) in c.accounts
            && Rebalanced(rates, c.expenses[id], u, c.accounts[AccountKey(uid, c.expenses[id].accountName)]).Ok?
            && Given(u.category)) ==>
              && (c.users[uid].categories.None? ==> r == Err(CategoriesMissing))
              && (c.users[uid].categories.Some? && u.category.value !in c.users[uid].categories.value ==> r == Err(CategoryNotPresent)))
  {
  }

  /**
   * With an amount, the balance moves by the difference between the new and
   * the old converted amounts, and the update is refused when that would
   * leave it below zero; a success then also rewrites the expense.
   */
  lemma UpdateRebalances(c: Collections, rates: Converter, uid: UserId, id: ExpenseId, u: ExpenseUpdate)
    requires u.amount.Some?
    requires uid in c.users && OwnedBy(c, uid, id)
    requires !(Given(u.currency) && Upper(u.currency.value) !in c.users[uid].currencies)
    requires AccountKey(uid, c.expenses[id].accountName) in c.accounts
    ensures var (c', r) := Update(c, rates, uid, id, u);
      var e := c.expenses[id];
      var k := AccountKey(uid, e.accountName);
      var account := c.accounts[k];
      var original := Convert(rates, e.amount, e.currency, account.currency);
      var revised := Convert(rates, u.amount.value, NewCurrency(e, u), account.currency);
      && (original.Err? || revised.Err? ==> r == Err(ConversionFailed) && c' == c)
      && (original.Ok? && revised.Ok? ==>
            var balance := account.balance - (revised.value - original.value);
            && (balance < 0.0 ==> r == Err(InsufficientBalance) && c' == c)
            && (balance >= 0.0 ==> (c'.accounts == c.accounts[k := account.(balance := balance)]
                                   && (r.Ok? ==> r.value.balance == balance))))
  {
  }

  /**
   * update_expense succeeds exactly when every check passes, the request has
   * a truthy field and the revised expense differs from the stored one; a
   * success $sets the given fields on that expense alone and returns it.
   */
  lemma UpdateOutcome(c: Collections, rates: Converter, uid: UserId, id: ExpenseId, u: ExpenseUpdate)
    ensures var (c', r) := Update(c, rates, uid, id, u);
      (r.Ok? <==>
         && uid in c.users && OwnedBy(c, uid, id)
         && !(Given(u.currency) && Upper(u.currency.value) !in c.users[uid].currencies)
         && AccountKey(uid, c.expenses[id].accountName) in c.accounts
         && Rebalanced(rates, c.expenses[id], u, c.accounts[AccountKey(uid, c.expenses[id].accountName)]).Ok?
         && (Given(u.category) ==> c.users[uid].categories.Some? && u.category.value in c.users[uid].categories.value)
         && HasFields(u)
         && Revised(c.expenses[id], u) != c.expenses[id])
      && ((&& uid in c.users && OwnedBy(c, uid, id)
           && !(Given(u.currency) && Upper(u.currency.value) !in c.users[uid].currencies)
           && AccountKey(uid, c.expenses[id].accountName) in c.accounts
           && Rebalanced(rates, c.expenses[id], u, c.accounts[AccountKey(uid, c.expenses[id].accountName)]).Ok?
           && (Given(u.category) ==> c.users[uid].categories.Some? && u.category.value in c.users[uid].categories.value)
           && HasFields(u)
           && Revised(c.expenses[id], u) == c.expenses[id]) ==> r == Err(UpdateNotApplied))
      && (r.Ok? ==>
            && r.value.expense == Revised(c.expenses[id], u)
            && r.value.balance == Rebalanced(rates, c.expenses[id], u, c.accounts[AccountKey(uid, c.expenses[id].accountName)]).value
            && c'.expenses == c.expenses[id := Revised(c.expenses[id], u)])
  {
  }

  /** Without an amount no balance changes, even when the currency does. */
  lemma UpdateWithoutAmountKeepsBalances(c: Collections, rates: Converter, uid: UserId, id: ExpenseId, u: ExpenseUpdate)
    requires u.amount.None?
    ensures Update(c, rates, uid, id, u).0.accounts == c.accounts
  {
  }

  /**
   * The balance is written before the category is validated: an update with
   * an amount and an unknown category fails, yet the balance has moved while
   * the expense still holds its old amount.
   */
  lemma UpdateCommitsBalanceBeforeCategoryCheck(c: Collections, rates: Converter, uid: UserId, id: ExpenseId, u: ExpenseUpdate)
    requires Update(c, rates, uid, id, u).1 == Err(CategoryNotPresent)
    ensures var c' := Update(c, rates, uid, id, u).0;
      var e := c.expenses[id];
      var k := AccountKey(uid, e.accountName);
      && OwnedBy(c, uid, id) && k in c.accounts
      && c'.expenses == c.expenses
      && Rebalanced(rates, e, u, c.accounts[k]).Ok?
      && c'.accounts == (if u.amount.Some? then c.accounts[k := c.accounts[k].(balance := Rebalanced(rates, e, u, c.accounts[k]).value)]
                         else c.accounts)
  {
  }

  /** A request with no truthy field that passes the earlier checks fails with "No fields to update" and changes nothing. */
  lemma UpdateNeedsAField(c: Collections, rates: Converter, uid: UserId, id: ExpenseId, u: ExpenseUpdate)
    requires !HasFields(u)
    requires uid in c.users && OwnedBy(c, uid, id) && AccountKey(uid, c.expenses[id].accountName) in c.accounts
    ensures Update(c, rates, uid, id, u) == (c, Err(NoFieldsToUpdate))
  {
  }

  /** Changing only the description leaves every balance as it was and rewrites only that expense. */
  lemma UpdateDescriptionOnly(c: Collections, rates: Converter, uid: UserId, id: ExpenseId, text: string)
    requires text != ""
    ensures var (c', r) := Update(c, rates, uid, id, ExpenseUpdate(None, None, None, Some(text), None));
      && c'.accounts == c.accounts
      && (r.Ok? ==> c'.expenses == c.expenses[id := c.expenses[id].(description := Some(text))])
  {
  }

  lemma UpdateWithAmountPreservesExposure(c: Collections, rates: Converter, uid: UserId, id: ExpenseId, u: ExpenseUpdate, k: AccountKey)
    requires c.Valid() && k in c.accounts
    requires u.amount.Some?
    requires Update(c, rates, uid, id, u).1.Ok?
    ensures var c' := Update(c, rates, uid, id, u).0;
      k in c'.accounts && Exposure(rates, c', k) == Exposure(rates, c, k)
  {
    var (c', r) := Update(c, rates, uid, id, u);
    var e := c.expenses[id];
    var v := Settled(rates, c.accounts[k].currency);
    ChargedOneChange(v, c.expenses, c'.expenses, k.owner, k.name, c.nextId, id);
  }

  // ---------------------------------------------------------------- delete_all_expenses

  /**
   * delete_all_expenses: with no expense it fails and changes nothing;
   * otherwise every expense of the user is gone, every other user's expense
   * stays, the count is the number removed, and each of the user's accounts
   * is credited with the raw sum of the amounts charged to it.
   */
  lemma DeleteAllOutcome(c: Collections, uid: UserId)
    requires c.Valid()
    ensures var (c', r) := DeleteAll(c, uid);
      && (r.Err? <==> forall id :: id in c.expenses ==> c.expenses[id].userId != uid)
      && (r.Err? ==> r.error == NoExpensesFound && c' == c)
      && (r.Ok? ==>
            && r.value == |OwnedBelow(c.expenses, uid, c.nextId)| > 0
            && (forall id :: id in c'.expenses <==> id in c.expenses && c.expenses[id].userId != uid)
            && (forall id :: id in c'.expenses ==> c'.expenses[id] == c.expenses[id])
            && c'.accounts.Keys == c.accounts.Keys
            && (forall k :: k in c.accounts ==>
                  c'.accounts[k] == c.accounts[k].(balance := c.accounts[k].balance +
                    (if k.owner == uid then Charged(Raw, c.expenses, uid, k.name, c.nextId) else 0.0)))
            && c'.users == c.users && c'.Valid())
  {
    var (c', r) := DeleteAll(c, uid);
    if forall id :: id in c.expenses ==> c.expenses[id].userId != uid {
      assert OwnedBelow(c.expenses, uid, c.nextId) == {};
    } else {
      var id :| id in c.expenses && c.expenses[id].userId == uid;
      assert id in OwnedBelow(c.expenses, uid, c.nextId);
    }
  }

  /** A second delete_all_expenses finds nothing. */
  lemma DeleteAllTwiceFails(c: Collections, uid: UserId)
    requires c.Valid()
    ensures DeleteAll(DeleteAll(c, uid).0, uid).1 == Err(NoExpensesFound)
  {
    DeleteAllOutcome(c, uid);
    DeleteAllOutcome(DeleteAll(c, uid).0, uid);
  }

  /**
   * When every expense charged to an account of the user is in the account's
   * currency, delete_all_expenses brings its balance to the exposure, and so
   * keeps the exposure: balances return to what they were before the expenses.
   */
  lemma DeleteAllSettlesExposure(c: Collections, rates: Converter, uid: UserId, k: AccountKey)
    requires c.Valid() && k in c.accounts && k.owner == uid
    requires forall id :: id in c.expenses && ChargedTo(c.expenses[id], uid, k.name) ==>
               c.expenses[id].currency == c.accounts[k].currency
    requires DeleteAll(c, uid).1.Ok?
    ensures var c' := DeleteAll(c, uid).0;
      && k in c'.accounts
      && c'.accounts[k].balance == Exposure(rates, c, k)
      && Exposure(rates, c', k) == Exposure(rates, c, k)
  {
    var c' := DeleteAll(c, uid).0;
    var cur := c.accounts[k].currency;
    RawIsSettledInOneCurrency(rates, cur, c.expenses, uid, k.name, c.nextId);
    ChargedNone(Settled(rates, cur), c'.expenses, uid, k.name, c'.nextId);
  }

  /**
   * Across currencies the raw refund is not the converted debit: 800 INR
   * spent from a 1000 USD account at 80 INR per USD costs 10 USD, yet
   * delete_all_expenses refunds 800, leaving 1790 USD.
   */
  lemma DeleteAllIgnoresConversion()
    ensures
      var rates: Converter := (a: real, from: Code, to: Code) => if from == "INR" && to == "USD" then Some(a / 80.0) else None;
      var k := AccountKey("u", "Checking");
      var c := Collections(map["u" := User({"USD", "INR"}, Some(map["Food" := Category(100.0)]))],
                           map[k := Account(1000.0, "USD")], map[], 0);
      var (c1, r1) := Add(c, rates, 0, "u", NewExpense(800.0, "INR", "Food", None, "Checking", None));
      && r1.Ok? && c1.accounts[k].balance == 990.0
      && DeleteAll(c1, "u").0.accounts[k].balance == 1790.0
  {
    var rates: Converter := (a: real, from: Code, to: Code) => if from == "INR" && to == "USD" then Some(a / 80.0) else None;
    var k := AccountKey("u", "Checking");
    var c := Collections(map["u" := User({"USD", "INR"}, Some(map["Food" := Category(100.0)]))],
                         map[k := Account(1000.0, "USD")], map[], 0);
    var x := NewExpense(800.0, "INR", "Food", None, "Checking", None);
    assert Upper("INR") == "INR";
    assert Convert(rates, 800.0, "INR", "USD") == Ok(10.0);
    var (c1, r1) := Add(c, rates, 0, "u", x);
    assert c1.expenses == map[0 := Recorded("u", x, 0)];
    assert Charged(Raw, c1.expenses, "u", "Checking", 1) == 800.0;
  }

  // ---------------------------------------------------------------- import_expenses_from_csv

  /**
   * The import never touches a balance or a user, and checks neither
   * currencies nor categories: what it inserts is the complete rows up to
   * the first one whose account is unknown, and they stay inserted when that
   * row makes the import fail.
   */
  lemma ImportOutcome(c: Collections, uid: UserId, upload: CsvUpload)
    requires c.Valid()
    ensures var (c', r) := Import(c, uid, upload);
      && c'.accounts == c.accounts && c'.users == c.users && c'.Valid()
      && (upload.contentType != "text/csv" ==> r == Err(NotCsv) && c' == c)
      && ((upload.contentType == "text/csv" && (upload.table.None? || !(RequiredColumns <= upload.table.value.columns)))
            ==> r == Err(CsvFailed) && c' == c)
      && (r.Err? ==> r.error in {NotCsv, CsvFailed})
      && (upload.contentType == "text/csv" && upload.table.Some? && RequiredColumns <= upload.table.value.columns ==>
            var kept := Complete(upload.table.value.rows);
            var j := FirstUnknownAccount(c.accounts, uid, kept);
            && (r.Ok? <==> j == |kept|)
            && (j < |kept| ==> r == Err(CsvFailed))
            && c'.nextId == c.nextId + j
            && c'.expenses == c.expenses + Inserted(uid, kept[..j], c.nextId)
            && (forall id :: id in c.expenses ==> c'.expenses[id] == c.expenses[id])
            && (forall i :: 0 <= i < j ==> c'.expenses[c.nextId + i] == Imported(uid, kept[i])))
  {
    var (c', r) := Import(c, uid, upload);
    if upload.contentType == "text/csv" && upload.table.Some? && RequiredColumns <= upload.table.value.columns {
      var kept := Complete(upload.table.value.rows);
      var j := FirstUnknownAccount(c.accounts, uid, kept);
      var added := Inserted(uid, kept[..j], c.nextId);
      forall i | 0 <= i < j
        ensures c'.expenses[c.nextId + i] == Imported(uid, kept[i])
      {
        assert kept[..j][i] == kept[i];
      }
    }
  }

  /** A well-formed row and a row without a date: exactly the first is imported. */
  lemma ImportDropsRowWithoutDate(c: Collections, uid: UserId, good: CsvRow)
    requires c.Valid()
    requires IsComplete(good) && AccountKey(uid, good.accountName.value) in c.accounts
    ensures var bad := good.(date := None);
      var upload := CsvUpload("text/csv", Some(CsvTable(RequiredColumns, [good, bad])));
      Import(c, uid, upload) == (c.(expenses := c.expenses[c.nextId := Imported(uid, good)], nextId := c.nextId + 1), Ok(()))
  {
    var bad := good.(date := None);
    assert Complete([good, bad]) == [good] by {
      assert [good, bad][1..] == [bad];
      assert [bad][1..] == [];
    }
    assert FirstUnknownAccount(c.accounts, uid, [good]) == 1 by {
      assert [good][1..] == [];
    }
    assert [good][..1] == [good];
    assert Inserted(uid, [good], c.nextId) == map[c.nextId := Imported(uid, good)];
    assert c.expenses + map[c.nextId := Imported(uid, good)] == c.expenses[c.nextId := Imported(uid, good)];
    var upload := CsvUpload("text/csv", Some(CsvTable(RequiredColumns, [good, bad])));
    assert upload.table.value.rows == [good, bad];
  }

  /** A good row followed by one naming an unknown account: the import fails, yet the first row stays inserted. */
  lemma ImportIsNotAtomic(c: Collections, uid: UserId, good: CsvRow, stray: CsvRow)
    requires c.Valid()
    requires IsComplete(good) && AccountKey(uid, good.accountName.value) in c.accounts
    requires IsComplete(stray) && AccountKey(uid, stray.accountName.value) !in c.accounts
    ensures var upload := CsvUpload("text/csv", Some(CsvTable(RequiredColumns, [good, stray])));
      var (c', r) := Import(c, uid, upload);
      && r == Err(CsvFailed)
      && c'.expenses == c.expenses[c.nextId := Imported(uid, good)]
      && c'.accounts == c.accounts
  {
    assert Complete([good, stray]) == [good, stray] by {
      assert [good, stray][1..] == [stray];
      assert [stray][1..] == [];
    }
    assert FirstUnknownAccount(c.accounts, uid, [good, stray]) == 1 by {
      assert [good, stray][1..] == [stray];
    }
    assert [good, stray][..1] == [good];
  }
}
