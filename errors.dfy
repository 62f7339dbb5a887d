/**
 * The kinds of failure of the expense and category routers; Status gives the
 * HTTP code of each. Most kinds are one HTTPException detail. Two are not:
 * InsufficientBalance covers add's and update's two balance messages, and
 * CategoriesMissing is the unhandled KeyError on a user without categories.
 */
module Errors {

  datatype Error =
    | InvalidAccountType   // add_expense: no account with that name for the user
    | UserNotFound         // the user document is missing
    | CurrencyNotAllowed   // upper-cased currency not in user["currencies"]
    | ConversionFailed     // the rate table rejected the currency pair
    | InsufficientBalance  // a debit would go below zero
    | CategoryNotPresent   // expense category not in user["categories"]
    | CategoriesMissing    // user["categories"] absent: an unhandled KeyError
    | ExpenseNotFound      // missing or owned by another user
    | AccountNotFound      // the expense's account no longer exists
    | NoFieldsToUpdate     // update request with no truthy field
    | UpdateNotApplied     // update_one modified nothing
    | NoExpensesFound      // delete_all on a user without expenses
    | NotCsv               // upload content type is not text/csv
    | CsvFailed            // anything raised inside the CSV import's try block
    | CategoryExists       // create_category on an existing name
    | CategoryNotFound     // update/get/delete of an unknown category
    | NegativeBudget       // update_category with a budget below zero

  /** The HTTP status code the source attaches to each kind. */
  function Status(e: Error): (code: int)
    ensures code == 400 || code == 404 || code == 500
    ensures code == 404 <==> e in {UserNotFound, ExpenseNotFound, AccountNotFound, NoExpensesFound, CategoryNotFound}
    ensures code == 500 <==> e in {CategoriesMissing, UpdateNotApplied, CsvFailed}
  {
    match e
    case UserNotFound | ExpenseNotFound | AccountNotFound | NoExpensesFound | CategoryNotFound => 404
    case CategoriesMissing | UpdateNotApplied | CsvFailed => 500
    case _ => 400
  }
}
