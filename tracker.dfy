/** The `BudgetTracker` class of budget_tracker.py: an append-only ledger of
    income and expense records held in memory and mirrored to a storage file,
    and the summary computed from it. */
module BudgetTracker {

  import opened Wrappers
  import opened Ledger
  import opened Categories
  import opened Storage

  /** What `show_summary` reports: the three totals, and the breakdown by
      category, which is left out entirely when there is no expense. */
  datatype Summary = Summary(
    totalIncome: real,
    totalExpense: real,
    balance: real,
    byCategory: Option<seq<Entry>>)

  class Tracker {
    /** The ledger, oldest record first. */
    var transactions: seq<Transaction>
    /** The rows of the storage file. */
    var file: seq<Row>

    /** Memory and storage agree: the file starts with the header (or is
        empty) and reads back as exactly the ledger. */
    ghost predicate Persisted()
      reads this
    {
      HeaderFirst(file) && Load(Some(file)) == Success(transactions)
    }

    /** Only the allocation step of `Open`: it takes the ledger and the rows
        as given and does not check that they agree. */
    constructor (transactions: seq<Transaction>, file: seq<Row>)
      ensures this.transactions == transactions && this.file == file
    {
      this.transactions := transactions;
      this.file := file;
    }

    /** `BudgetTracker()` (budget_tracker.py:6-9): starts from an empty
        ledger and loads the storage file, `None` when it does not exist. A
        file that cannot be read makes the construction fail. */
    static method Open(stored: Option<seq<Row>>) returns (r: Result<Tracker, LoadError>)
      ensures r.Failure? <==> Load(stored).Failure?
      ensures r.Failure? ==> r.error == Load(stored).error
      ensures r.Success? ==> fresh(r.value)
      ensures r.Success? ==> r.value.transactions == Load(stored).value
      ensures r.Success? ==> r.value.file == (if stored.Some? then stored.value else [])
      ensures r.Success? && (stored.None? || HeaderFirst(stored.value)) ==> r.value.Persisted()
      ensures stored.None? ==>
        && r.Success? && r.value.transactions == []
        && TotalIncome(r.value.transactions) == 0.0
        && TotalExpense(r.value.transactions) == 0.0
        && !HasExpense(r.value.transactions)
    {
      var loaded := LoadTransactions(stored);
      match loaded
      case Failure(e) =>
        r := Failure(e);
      case Success(ts) =>
        var tracker := new Tracker(ts, if stored.Some? then stored.value else []);
        r := Success(tracker);
    }

    /** `save_transaction` (budget_tracker.py:19-24): appends one row,
        after the header when the file is still empty. */
    method SaveTransaction(t: Transaction)
      modifies this`file
      ensures file == Save(old(file), t)
      ensures old(file) < file && file[|file| - 1] == Record(t)
    {
      if file == [] {
        file := file + [Header];
      }
      file := file + [Record(t)];
    }

    /** `add_income` (budget_tracker.py:26-35). The clock reading is passed
        in as `date`. */
    method AddIncome(amount: real, description: string, date: string)
      modifies this
      ensures transactions == old(transactions) + [Transaction(Income, amount, description, IncomeCategory, date)]
      ensures file == Save(old(file), Transaction(Income, amount, description, IncomeCategory, date))
      ensures TotalIncome(transactions) == old(TotalIncome(transactions)) + amount
      ensures TotalExpense(transactions) == old(TotalExpense(transactions))
      ensures CategoryTotals(transactions) == old(CategoryTotals(transactions))
      ensures old(Persisted()) ==> Persisted()
    {
      var t := Transaction(Income, amount, description, IncomeCategory, date);
      Append(t);
    }

    /** `add_expense` (budget_tracker.py:38-48). The clock reading is passed
        in as `date`. */
    method AddExpense(amount: real, description: string, category: string, date: string)
      modifies this
      ensures transactions == old(transactions) + [Transaction(Expense, amount, description, category, date)]
      ensures file == Save(old(file), Transaction(Expense, amount, description, category, date))
      ensures TotalExpense(transactions) == old(TotalExpense(transactions)) + amount
      ensures TotalIncome(transactions) == old(TotalIncome(transactions))
      ensures CategoryTotals(transactions) == AddTo(old(CategoryTotals(transactions)), category, amount)
      ensures old(Persisted()) ==> Persisted()
    {
      var t := Transaction(Expense, amount, description, category, date);
      Append(t);
    }

    /** The part `add_income` and `add_expense` share: append the record to
        the ledger, then to the file. */
    method Append(t: Transaction)
      modifies this
      ensures transactions == old(transactions) + [t]
      ensures file == Save(old(file), t)
      ensures TotalIncome(transactions) == old(TotalIncome(transactions)) + Contribution(t, Income)
      ensures TotalExpense(transactions) == old(TotalExpense(transactions)) + Contribution(t, Expense)
      ensures CategoryTotals(transactions) == Step(old(CategoryTotals(transactions)), t)
      ensures old(Persisted()) ==> Persisted()
    {
      ghost var wasPersisted := Persisted();
      if wasPersisted {
        SaveThenLoad(file, transactions, t);
      }
      AppendOneTotals(transactions, t);
      CategoryTotalsAppend(transactions, t);
      transactions := transactions + [t];
      SaveTransaction(t);
    }

    /** The figures `show_summary` prints (budget_tracker.py:50-72). */
    method ShowSummary() returns (s: Summary)
      ensures s.totalIncome == TotalIncome(transactions)
      ensures s.totalExpense == TotalExpense(transactions)
      ensures s.balance == s.totalIncome - s.totalExpense
      ensures s.byCategory.Some? <==> HasExpense(transactions)
      ensures s.byCategory.None? ==> s.totalExpense == 0.0
      ensures s.byCategory.Some? ==>
        && s.byCategory.value == CategoryTotals(transactions)
        && s.byCategory.value != []
        && SumAmounts(s.byCategory.value) == s.totalExpense
    {
      var totalIncome := TotalIncome(transactions);
      var totalExpense := TotalExpense(transactions);
      var balance := totalIncome - totalExpense;
      if HasExpense(transactions) {
        var categories := Breakdown(transactions);
        CategoryTotalsEmpty(transactions);
        CategoryTotalsSum(transactions);
        s := Summary(totalIncome, totalExpense, balance, Some(categories));
      } else {
        NoExpenseNoTotal(transactions);
        s := Summary(totalIncome, totalExpense, balance, None);
      }
    }
  }

  /** A session from an empty start: one income, two expenses in two
      categories, then the summary, whose figures follow from the contracts
      above alone. */
  method SalaryLunchBus()
  {
    var start := Tracker.Open(None);
    var tracker := start.value;
    assert CategoryTotals(tracker.transactions) == [];
    tracker.AddIncome(1000.0, "Salary", "2024-01-01 09:00:00");
    tracker.AddExpense(50.25, "Lunch", "Food", "2024-01-01 12:00:00");
    assert CategoryTotals(tracker.transactions) == [Entry("Food", 50.25)];
    tracker.AddExpense(19.75, "Bus", "Transport", "2024-01-01 18:00:00");
    assert "Food" != "Transport";
    assert CategoryTotals(tracker.transactions) == [Entry("Food", 50.25), Entry("Transport", 19.75)];
    assert tracker.transactions[2].kind == Expense;
    var s := tracker.ShowSummary();
    assert s.totalIncome == 1000.0;
    assert s.totalExpense == 70.0;
    assert s.balance == 930.0;
    assert s.byCategory == Some([Entry("Food", 50.25), Entry("Transport", 19.75)]);
  }
}
