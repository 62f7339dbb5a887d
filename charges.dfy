/**
 * What the user's expenses have taken out of one account: the sum, over the
 * live expenses of (owner, account name), of either the raw stored amount
 * (what delete_all_expenses refunds) or the amount converted into the
 * account's currency (what add/update/delete debit and refund).
 * Expenses are visited in id order, ids below a bound.
 */
module Charges {
  import opened Results
  import opened Currency
  import opened Store

  /** How one expense is valued against its account. */
  datatype Valuation = Raw | Settled(rates: Converter, into: Code)

  /** The valued amount; an expense the rate table cannot convert is worth 0. */
  function Worth(v: Valuation, e: Expense): real {
    match v
    case Raw => e.amount
    case Settled(rates, into) =>
      match Convert(rates, e.amount, e.currency, into)
      case Ok(x) => x
      case Err(_) => 0.0
  }

  predicate ChargedTo(e: Expense, owner: UserId, name: string) {
    e.userId == owner && e.accountName == name
  }

  /** The contribution of id: its worth when it is a live expense on (owner, name). */
  function Part(v: Valuation, es: map<ExpenseId, Expense>, owner: UserId, name: string, id: ExpenseId): real {
    if id in es && ChargedTo(es[id], owner, name) then Worth(v, es[id]) else 0.0
  }

  /** The sum of Part over the ids below n. */
  function Charged(v: Valuation, es: map<ExpenseId, Expense>, owner: UserId, name: string, n: nat): real
    decreases n
  {
    if n == 0 then 0.0 else Charged(v, es, owner, name, n - 1) + Part(v, es, owner, name, n - 1)
  }

  /** Two sums agree when their parts agree id by id below the bound. */
  lemma {:induction false} ChargedFrame(v1: Valuation, es1: map<ExpenseId, Expense>,
                                        v2: Valuation, es2: map<ExpenseId, Expense>,
                                        owner: UserId, name: string, n: nat)
    requires forall i :: 0 <= i < n ==> Part(v1, es1, owner, name, i) == Part(v2, es2, owner, name, i)
    ensures Charged(v1, es1, owner, name, n) == Charged(v2, es2, owner, name, n)
  {
    if n > 0 {
      ChargedFrame(v1, es1, v2, es2, owner, name, n - 1);
    }
  }

  /** Changing one id below the bound changes the sum by exactly the change of its part. */
  lemma {:induction false} ChargedOneChange(v: Valuation, es1: map<ExpenseId, Expense>, es2: map<ExpenseId, Expense>,
                                            owner: UserId, name: string, n: nat, id: ExpenseId)
    requires id < n
    requires forall i :: 0 <= i < n && i != id ==> Part(v, es1, owner, name, i) == Part(v, es2, owner, name, i)
    ensures Charged(v, es2, owner, name, n) == Charged(v, es1, owner, name, n)
                                              - Part(v, es1, owner, name, id) + Part(v, es2, owner, name, id)
  {
    if n - 1 == id {
      ChargedFrame(v, es1, v, es2, owner, name, n - 1);
    } else {
      ChargedOneChange(v, es1, es2, owner, name, n - 1, id);
    }
  }

  /** Without any expense charged to (owner, name) below the bound the sum is 0. */
  lemma {:induction false} ChargedNone(v: Valuation, es: map<ExpenseId, Expense>, owner: UserId, name: string, n: nat)
    requires forall i :: 0 <= i < n && i in es ==> !ChargedTo(es[i], owner, name)
    ensures Charged(v, es, owner, name, n) == 0.0
  {
    if n > 0 {
      ChargedNone(v, es, owner, name, n - 1);
    }
  }

  /**
   * When every expense charged to the account is already in the account's
   * currency, the raw sum and the converted sum coincide.
   */
  lemma RawIsSettledInOneCurrency(rates: Converter, cur: Code, es: map<ExpenseId, Expense>,
                                  owner: UserId, name: string, n: nat)
    requires forall i :: 0 <= i < n && i in es && ChargedTo(es[i], owner, name) ==> es[i].currency == cur
    ensures Charged(Raw, es, owner, name, n) == Charged(Settled(rates, cur), es, owner, name, n)
  {
    ChargedFrame(Raw, es, Settled(rates, cur), es, owner, name, n);
  }
}
