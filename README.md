# MoneyManager expense ledger, modelled in Dafny

This project models the ledger core of MoneyManager's API: the expense handlers of
`api/routers/expenses.py` and the per-user category handlers of
`api/routers/categories.py`. Users hold accounts keyed by (user, name), each with a
`balance` and a `currency`. Expenses are documents keyed by id, and each one debits an
account after currency conversion. Each user document carries the set of allowed
currencies and a map from category name to `{monthly_budget}`.

Layout:

- `results.dfy`, `errors.dfy`: Option/Result, and the error kinds that group the handlers' failures, each with its status code. Most kinds stand for one `HTTPException` detail. Two do not: `InsufficientBalance` covers both "Insufficient balance in … account" (add) and "Insufficient balance to update the expense" (update). `CategoriesMissing` stands for the unhandled `KeyError` on a user document without `categories`, which the server answers with 500.
- `currency.dfy`: `convert_currency` over a rate table passed in as a function, and the upper-casing of currency codes.
- `store.dfy`: the three collections (users, accounts, expenses) as maps, a `Collections` snapshot value, and the mutable `Database` class.
- `charges.dfy`: the sum of what a user's live expenses on one account are worth, valued either raw or converted into the account's currency, with its induction lemmas.
- `ledger.dfy`: one reference function per expense handler. Each maps a snapshot and a request to the next snapshot and the response, and keeps the source's order of checks and writes.
- `expenses.dfy`: the handlers as imperative methods over `Database`. Each method reads, checks and overwrites fields step by step, and is proved to end in exactly the state and response of its reference function. The two loops of `delete_all_expenses` and the row loop of the CSV import are `while` loops with invariants.
- `ledger_properties.dfy`: the properties of the expense handlers, proved as lemmas about the reference functions.
- `categories.dfy`: the category map edits as functions, the handlers as methods over `Database`, the getters, and their lemmas.

The key quantity is an account's *exposure*: its balance plus what its owner's live
expenses on it are worth in the account's currency. `add_expense`, `delete_expense` and
a successful `update_expense` that carries an amount keep the exposure. `delete_all_expenses`
refunds raw, unconverted amounts. It is guaranteed to settle the exposure when every
expense is already in its account's currency, and in general it does not. `DeleteAllIgnoresConversion` gives a concrete
mixed-currency case where it does not.

Quirks of the source that the model keeps:

- `update_expense` writes the new balance before it validates the category. An update with an amount and an unknown category fails, but the balance stays moved.
- When an update carries no amount, the balance does not change, even if the currency changes.
- The CSV import checks neither balance, currency allowance nor category. The first row naming an unknown account aborts the import, but the rows inserted before it stay.
- Where `user["categories"]` is absent, the expense handlers raise an unhandled `KeyError`. This is modelled as the error `CategoriesMissing` (status 500). The category handlers treat the same absent map as empty or as "Category not found".
- `update_expense` answers 500 "Failed to update expense" when `update_one` modifies nothing. That happens when every given field equals the stored value. It is modelled as `UpdateNotApplied`, and the balance write before it stays.

Modelling choices:

- Amounts are `real`.
- Expense ids are natural numbers taken from a counter (`nextId`), and every stored id is below it. `delete_all_expenses` visits the user's expenses in id order.
- `delete_all_expenses` keys its adjustments by account `_id`, which is one-to-one with (user, account name). The model keys them by name.
- The caller's identity (`verify_token`), the clock (`datetime.now`) and the rate table are parameters.

## Model

| member | source | states |
|---|---|---|
| Currency.Convert | api/routers/expenses.py:39-48 | equal codes give the amount unchanged without consulting the rate table; otherwise the table's result, and a table failure becomes ConversionFailed (400) |
| Currency.SameCodeIgnoresRates | api/routers/expenses.py:41-42 | any two rate tables agree on a same-code conversion, which is the identity |
| Currency.Upper | api/routers/expenses.py:96 | the code keeps its length, letters a-z become upper case, and no lower-case letter remains |
| Errors.Status | api/routers/expenses.py:85-552 | every error kind maps to 400, 404 or 500; the not-found kinds are exactly the 404s and the unhandled failures exactly the 500s |
| Ledger.MinimalExpense | api/routers/expenses.py:51-59 | a request naming only amount, currency and category goes to "Checking", with no description and no date |
| Ledger.Recorded | api/routers/expenses.py:130-139 | the inserted document carries the caller's user_id, the upper-cased currency, and the date defaulted to now |
| Ledger.Add | api/routers/expenses.py:86-147 | a failed add changes nothing; users and account names are unchanged; fresh ids stay fresh |
| Expenses.AddExpense | api/routers/expenses.py:85-149 | the handler ends in exactly the state and response of Ledger.Add |
| LedgerProperties.AddOutcome | api/routers/expenses.py:86-147 | success iff all five checks pass; a success debits exactly the converted amount, never below zero (equality allowed), and inserts under a fresh id exactly the request's document (Recorded): the amount and category as given, the currency upper-cased, the caller's user_id, the date or now |
| LedgerProperties.AddCheckOrder | api/routers/expenses.py:86-122 | the first failing check decides the error: account, user, currency, conversion, balance, then the category, where a user without a categories map gives CategoriesMissing (the KeyError, 500) |
| LedgerProperties.AddDefaultsToChecking | api/routers/expenses.py:58 | without an account name the expense is charged to "Checking", dated now |
| LedgerProperties.AddPreservesExposure | api/routers/expenses.py:105-140 | every account's balance plus converted live expenses is the same after add_expense |
| Ledger.Get | api/routers/expenses.py:181-187 | the expense is returned iff it exists and belongs to the caller, else "Expense not found" |
| Expenses.GetExpense | api/routers/expenses.py:181-187 | returns the stored expense exactly when the caller owns it, else ExpenseNotFound |
| LedgerProperties.AddThenGet | api/routers/expenses.py:182-186 | an added expense reads back for its owner and is "not found" for anyone else |
| Ledger.Delete | api/routers/expenses.py:250-277 | a failed delete changes nothing; ids stay fresh |
| Expenses.DeleteExpense | api/routers/expenses.py:250-278 | the handler ends in exactly the state and response of Ledger.Delete |
| LedgerProperties.DeleteOutcome | api/routers/expenses.py:251-277 | success iff the caller owns the expense, its account exists and the amount converts; a missing or foreign expense gives "Expense not found", a missing account "Account not found", a failed conversion ConversionFailed; a success credits the stored amount converted into the account currency and removes only that expense |
| LedgerProperties.DeletePreservesExposure | api/routers/expenses.py:263-274 | every account's exposure is the same after delete_expense |
| LedgerProperties.AddThenDeleteRestores | api/routers/expenses.py:251-277 | add then delete of that expense restores every balance and the expense collection exactly |
| Ledger.NewCurrency | api/routers/expenses.py:309-335 | the new amount's currency is the given one upper-cased (no lower-case letter left) when truthy, else the stored one |
| Ledger.HasFields | api/routers/expenses.py:319-384 | an amount or a date always counts as a field; a request without any field revises no expense at all |
| Ledger.Rebalanced | api/routers/expenses.py:321-346 | without an amount the balance is kept; with one, the result is never negative, and the only errors are conversion failure and insufficient balance |
| Ledger.Revised | api/routers/expenses.py:308-366 | each truthy field (any given amount or date) replaces the stored one; owner and account never change |
| Ledger.Update | api/routers/expenses.py:297-398 | any failure leaves the expenses unchanged; no account or expense appears or disappears; a success writes Revised(e, u) to that expense alone and returns it |
| Expenses.UpdateExpense | api/routers/expenses.py:297-398 | the handler ends in exactly the state and response of Ledger.Update |
| LedgerProperties.UpdateOutcome | api/routers/expenses.py:298-398 | success iff every check passes, some field is truthy and the revised expense differs from the stored one; a success sets exactly the given fields on that expense alone and returns the updated document with the balance (rebalanced, or unchanged without an amount); a request whose fields all equal the stored ones gives "Failed to update expense" (UpdateNotApplied, 500) |
| LedgerProperties.UpdateCheckOrder | api/routers/expenses.py:298-375 | user, ownership, currency and account are checked in that order, and each failure changes nothing; past the balance, a category on a user without a categories map gives CategoriesMissing, an unknown one CategoryNotPresent |
| LedgerProperties.UpdateRebalances | api/routers/expenses.py:321-346 | with an amount, new balance = balance - (new converted - old converted); below zero it is refused and nothing changes |
| LedgerProperties.UpdateWithoutAmountKeepsBalances | api/routers/expenses.py:321-323 | without an amount no balance changes, even when the currency does |
| LedgerProperties.UpdateCommitsBalanceBeforeCategoryCheck | api/routers/expenses.py:344-358 | a "Category is not present" failure leaves the expense unchanged but the new balance written |
| LedgerProperties.UpdateNeedsAField | api/routers/expenses.py:383-384 | a request with no truthy field fails with "No fields to update" and changes nothing |
| LedgerProperties.UpdateDescriptionOnly | api/routers/expenses.py:360-362 | a description-only update keeps every balance and rewrites only that expense's description |
| LedgerProperties.UpdateWithAmountPreservesExposure | api/routers/expenses.py:328-346 | a successful update carrying an amount keeps every account's exposure |
| Ledger.OwnedBelow | api/routers/expenses.py:204 | exactly the user's expense ids |
| Ledger.Refunded | api/routers/expenses.py:226-230 | the same accounts and currencies; other users' accounts unchanged |
| Ledger.DeleteAll | api/routers/expenses.py:204-235 | a failure changes nothing; users unchanged; ids stay fresh |
| Expenses.AccountAdjustments | api/routers/expenses.py:209-223 | per existing account, the raw unconverted sum of the amounts of the user's expenses charged to it; expenses on missing accounts add nothing |
| Expenses.DeleteAllExpenses | api/routers/expenses.py:201-235 | the handler ends in exactly the state and response of Ledger.DeleteAll |
| LedgerProperties.DeleteAllOutcome | api/routers/expenses.py:204-235 | fails with "No expenses found to delete" iff the user has none; otherwise removes exactly the user's expenses, reports their number, and credits each account once with its raw sum, keeping its currency |
| LedgerProperties.DeleteAllTwiceFails | api/routers/expenses.py:204-206 | a second delete_all finds no expenses |
| Charges.RawIsSettledInOneCurrency | api/routers/expenses.py:211-223 | when every expense on an account is in its currency, the raw sum equals the converted sum |
| LedgerProperties.DeleteAllSettlesExposure | api/routers/expenses.py:209-230 | for same-currency data each account ends at its exposure, i.e. its balance before those expenses |
| LedgerProperties.DeleteAllIgnoresConversion | api/routers/expenses.py:211-229 | 800 INR debited as 10 USD is refunded as 800 USD by delete_all |
| Ledger.Complete | api/routers/expenses.py:511-520 | every kept row has all six required fields |
| Ledger.CompleteKeepsOrder | api/routers/expenses.py:511-520 | the filter keeps file order: the complete rows of a concatenation are those of each part, in turn |
| Ledger.CompleteKeepsCompleteRows | api/routers/expenses.py:511-520 | a complete row is kept as often as it occurs, and an incomplete row never |
| Ledger.FirstUnknownAccount | api/routers/expenses.py:534-542 | every row before the index names an existing account, and the row at the index does not |
| Ledger.Imported | api/routers/expenses.py:524-532 | the inserted document is the row with its currency upper-cased and the caller's user_id |
| Ledger.Inserted | api/routers/expenses.py:523-545 | the i-th inserted row sits at id first + i, and no other id is used |
| Ledger.Import | api/routers/expenses.py:475-552 | balances and users are never touched; ids stay fresh |
| Expenses.InsertRows | api/routers/expenses.py:523-545 | inserts the rows up to the first unknown account and reports whether it reached the end |
| Expenses.ImportExpensesFromCsv | api/routers/expenses.py:473-552 | the handler ends in exactly the state and response of Ledger.Import |
| LedgerProperties.ImportOutcome | api/routers/expenses.py:475-552 | a wrong content type gives 400; an unreadable table or missing columns give "Failed to process CSV"; otherwise exactly the complete rows up to the first unknown account are added, at fresh consecutive ids, and no other expense changes; the import succeeds iff there is no unknown account, and an unknown account gives "Failed to process CSV" (500) with the earlier rows kept |
| LedgerProperties.ImportDropsRowWithoutDate | api/routers/expenses.py:506-520 | a good row and a row without a date import exactly one expense |
| LedgerProperties.ImportIsNotAtomic | api/routers/expenses.py:534-545 | a good row then an unknown-account row fails, yet the good row stays inserted |
| Categories.WithCategory | api/routers/categories.py:78-84 | an absent map is empty; an existing name gives "Category already exists"; otherwise the name is added with its budget, unchecked, and the rest is kept |
| Categories.Rewritten | api/routers/categories.py:86-88 | only that user's categories are replaced |
| Categories.CreateCategory | api/routers/categories.py:72-90 | a missing user gives 404; otherwise the map becomes WithCategory's result, or nothing changes on error |
| Categories.WithBudget | api/routers/categories.py:111-117 | an absent map or unknown name gives "Category not found"; a negative budget is refused and zero accepted; only that entry's budget changes |
| Categories.UpdateCategory | api/routers/categories.py:108-123 | a missing user gives "Category not found"; otherwise the map becomes WithBudget's result, or nothing changes on error |
| Categories.WithoutCategory | api/routers/categories.py:182-185 | removes exactly the named key; unknown name gives "Category not found" |
| Categories.DeleteCategory | api/routers/categories.py:179-191 | a missing user gives "Category not found"; otherwise the map becomes WithoutCategory's result, or nothing changes on error |
| Categories.GetAllCategories | api/routers/categories.py:137-143 | the whole map, or empty when the user or the map is absent |
| Categories.Lookup | api/routers/categories.py:161-164 | the named entry, or "Category not found" |
| Categories.GetCategory | api/routers/categories.py:158-164 | a missing user gives "Category not found", otherwise Lookup on the user's map |
| Categories.CreateThenLookup | api/routers/categories.py:81-84 | a created category reads back with its budget |
| Categories.CreateThenDeleteRestores | api/routers/categories.py:182-189 | deleting a just-created category restores the map |
| Categories.UpdateThenLookup | api/routers/categories.py:114-117 | an updated budget reads back, and repeating the update changes nothing |
| Categories.DeleteThenGone | api/routers/categories.py:182-185 | after delete, get, update and delete of that name all give "Category not found" |

## Left out

- MongoDB and motor plumbing, `format_id`, and ObjectId parsing. The collections are maps, and an expense id is a natural number from a counter.
- `get_expenses` (list all) and the Excel export (`export_expenses_to_excel`). They are read-only projections and spreadsheet formatting.
- CSV decoding and parsing (chardet, `pd.read_csv`, `pd.to_datetime`). The upload arrives as an already-parsed table of optional fields, with the date `None` when it is missing or does not parse. Two kinds of bad cell are not representable. An `amount` column that pandas keeps as text (a cell such as "INVALID") would be stored as a string. A `currency` column that pandas parses as numbers makes `.upper()` raise, which the handler turns into a 500 "Failed to process CSV".
- The rate table of the `CurrencyConverter` library and its float arithmetic. It is an arbitrary function parameter, and amounts are exact reals.
- `verify_token` and its token store. The authenticated user id is a parameter.
- Races between concurrent requests. The model is sequential.
- Store write failures: the "Failed to add expense" and "Failed to delete expense" branches cannot be reached in a sequential store.
- Currency.Upper: only ASCII letters are upper-cased; Python's `str.upper` also maps other Unicode letters.
- A user document without a `currencies` field: `add_expense` and `update_expense` would raise a `KeyError` (a 500) when they read it. The model gives every user a set of currencies, so that path is not represented.
- Categories.GetAllCategories: returns an empty map where the source returns an empty JSON list, so the model does not distinguish that response shape.
- The Discord bot, `api/app.py`, the web app and `config.py`: they are routing, front ends and configuration outside the ledger.
