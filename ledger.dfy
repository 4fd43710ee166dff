/** The records of the budget ledger and the totals computed over them
    (budget_tracker.py, `add_income`, `add_expense` and the sums at the top
    of `show_summary`). */
module Ledger {

  /** The `type` column of a record: `'income'` or `'expense'`. */
  datatype Kind = Income | Expense

  /** One record of the ledger, with the five columns the tracker writes:
      type, amount, description, category and date. The date is the text the
      clock produced when the record was made; it is never interpreted. */
  datatype Transaction = Transaction(
    kind: Kind,
    amount: real,
    description: string,
    category: string,
    date: string)

  /** The category every income record carries. */
  const IncomeCategory: string := "income"

  /** What one record adds to the total of kind `k`. */
  function Contribution(t: Transaction, k: Kind): real
  {
    if t.kind == k then t.amount else 0.0
  }

  /** The sum of the amounts of the records of kind `k`, accumulated from the
      first record to the last as Python's `sum` does. */
  function Total(ts: seq<Transaction>, k: Kind): real
    decreases |ts|
  {
    if ts == [] then 0.0 else Total(ts[..|ts| - 1], k) + Contribution(ts[|ts| - 1], k)
  }

  function TotalIncome(ts: seq<Transaction>): real
  {
    Total(ts, Income)
  }

  function TotalExpense(ts: seq<Transaction>): real
  {
    Total(ts, Expense)
  }

  /** The `any(...)` test that decides whether the breakdown is shown. */
  predicate HasExpense(ts: seq<Transaction>)
  {
    exists i :: 0 <= i < |ts| && ts[i].kind == Expense
  }

  /** Totals distribute over concatenation of ledgers: the total of a ledger
      is the total of its older part plus the total of its newer part. */
  lemma {:induction false} TotalAppend(a: seq<Transaction>, b: seq<Transaction>, k: Kind)
    ensures Total(a + b, k) == Total(a, k) + Total(b, k)
    decreases |b|
  {
    if b == [] {
      assert a + b == a;
    } else {
      var b' := b[..|b| - 1];
      assert (a + b)[..|a + b| - 1] == a + b';
      assert (a + b)[|a + b| - 1] == b[|b| - 1];
      TotalAppend(a, b', k);
    }
  }

  /** Appending one record moves the total of its own kind by its amount and
      leaves the total of the other kind where it was. */
  lemma AppendOneTotals(ts: seq<Transaction>, t: Transaction)
    ensures TotalIncome(ts + [t]) == TotalIncome(ts) + (if t.kind == Income then t.amount else 0.0)
    ensures TotalExpense(ts + [t]) == TotalExpense(ts) + (if t.kind == Expense then t.amount else 0.0)
  {
  }

  /** A ledger without expense records has total expense 0. */
  lemma {:induction false} NoExpenseNoTotal(ts: seq<Transaction>)
    requires !HasExpense(ts)
    ensures TotalExpense(ts) == 0.0
    decreases |ts|
  {
    if ts != [] {
      var prefix := ts[..|ts| - 1];
      assert !HasExpense(prefix) by {
        forall i | 0 <= i < |prefix| ensures prefix[i].kind != Expense {
          assert prefix[i] == ts[i];
        }
      }
      NoExpenseNoTotal(prefix);
    }
  }
}
