# Personal budget tracker — a verified model

This project models the `BudgetTracker` class of a small command-line
budget tracker (`budget_tracker.py`). The tracker keeps an append-only
ledger of income and expense records in memory, mirrors every new record
to a CSV storage file, and summarises the ledger: total income, total
expenses, the balance, and the expenses broken down by category in the
order the categories first appear.

The model has five modules, one file each:

- `wrappers.dfy` (`Wrappers`): `Option` and `Result`.
- `ledger.dfy` (`Ledger`): the `Transaction` record, with a `Kind`
  (`Income | Expense`) in place of the free-text `type` column. It also
  holds the totals as sums over the ledger, accumulated left to right as
  Python's `sum` does.
- `categories.dfy` (`Categories`): the breakdown by category. One turn of
  the loop over the ordered dictionary is `Step`, and the whole loop over a
  ledger is `CategoryTotals`. Both are proved against independent reference
  definitions: `ExpenseCategories`, `Spent` (the sum for one category) and
  `FirstSeen` (where a category first appears). `Breakdown` is the loop
  itself, over a `map` plus the order in which keys were inserted. It is
  proved equal to `CategoryTotals`.
- `storage.dfy` (`Storage`): the storage file as a sequence of rows, where a
  row is either the header or one record. It models the save rule (header
  only when the file is empty) and what loading leaves in memory. A missing
  file is `None`. It proves the round trip: saving records one by one and
  reading the file back gives the ledger.
- `tracker.dfy` (`BudgetTracker`): the class `Tracker`. Its fields are the
  ledger `transactions` and the storage rows `file`. `Open` stands for the
  constructor and its load, `AddIncome` and `AddExpense` append and save,
  and `ShowSummary` computes what the summary prints.

Amounts are `real`, so the sum identities hold exactly. The clock reading
of a new record is a `date` parameter.

`Tracker.Persisted()` says that the file starts with the header (or is
empty) and reads back as exactly the ledger. Every add keeps it.
`Open` establishes it whenever the file is missing, empty or starts with
the header. The source does not check that a file starts with its header.
A one-row file whose row is a record loads as an empty ledger, because the
CSV reader takes that row as the header. After the next save, that file no
longer reads back (`Storage.HeaderlessFile`), so there the model promises
nothing about `Persisted()`.

The model follows the code in three places:

- Amounts are not checked to be non-negative.
- A malformed file fails with the two errors the code would raise
  (`MissingAmountColumn` for the `KeyError`, `AmountNotANumber` for the
  `ValueError`).
- The `any(...)` test decides whether the breakdown is shown.

## Model

| member | source | states |
|---|---|---|
| `Ledger.TotalAppend` | budget_tracker.py:51-52 | the total of either kind over a ledger `a + b` is the total over `a` plus the total over `b` |
| `Ledger.AppendOneTotals` | budget_tracker.py:51-52 | appending one record raises the total of its own kind by its amount and leaves the other total unchanged |
| `Ledger.NoExpenseNoTotal` | budget_tracker.py:52 | a ledger with no expense record has total expense 0 |
| `Categories.AddToKeys` | budget_tracker.py:67-69 | one turn of the loop keeps the key order; a category not yet present is added at the end |
| `Categories.AddToSum` | budget_tracker.py:67-69 | one turn of the loop raises the sum of the breakdown by exactly the record's amount |
| `Categories.CategoryTotalsDistinct` | budget_tracker.py:63-69 | every category appears once in the breakdown |
| `Categories.CategoryTotalsKeys` | budget_tracker.py:63-69 | a category is listed if and only if some expense record carries it |
| `Categories.CategoryTotalsEmpty` | budget_tracker.py:61-69 | the breakdown is empty if and only if the ledger holds no expense, so a breakdown that is shown is never empty |
| `Categories.CategoryTotalsAmounts` | budget_tracker.py:63-69 | each listed amount is the sum of the amounts of the expense records of that category |
| `Categories.CategoryTotalsOrder` | budget_tracker.py:63-71 | categories are listed in the order of their first expense record in the ledger |
| `Categories.CategoryTotalsSum` | budget_tracker.py:52-69 | the listed amounts add up to the total expense |
| `Categories.ItemsUpdate` | budget_tracker.py:67-69 | adding to a key already in the dictionary changes that one entry in place |
| `Categories.Breakdown` | budget_tracker.py:63-69 | the dictionary loop, with insertion order kept, yields exactly `CategoryTotals` of the ledger |
| `Storage.LoadTransactions` | budget_tracker.py:11-17 | the load loop yields exactly `Load`: a missing or empty file gives an empty ledger; otherwise the first row is taken as the header and each later row becomes a record, and the first row that cannot be converted fails the load |
| `Storage.ReadRecordsExactly` | budget_tracker.py:15-17 | the rows after the header read back as `ts` if and only if they are exactly the records of `ts`, in order |
| `Storage.SaveThenLoad` | budget_tracker.py:19-24 | saving a record to a file that reads back as `ts` gives a file that starts with the header and reads back as `ts + [t]` |
| `Storage.SaveAllThenLoad` | budget_tracker.py:11-24 | round trip: records saved one after another read back after the prior ledger, in the order they were saved |
| `Storage.HeaderlessFile` | budget_tracker.py:11-24 | a one-row file whose row is a record loads as an empty ledger, and after one more save it no longer loads (`MissingAmountColumn`) |
| `Storage.SavedFileLayout` | budget_tracker.py:19-24 | a file written from scratch has exactly one header, first, then one row per record in order |
| `BudgetTracker.Tracker.Open` | budget_tracker.py:6-17 | a missing file gives an empty ledger with all totals 0 and no expense; otherwise the ledger is what the file reads back as, or the load error; a header-first file starts `Persisted()` |
| `BudgetTracker.Tracker.SaveTransaction` | budget_tracker.py:19-24 | the header is written only into an empty file, then exactly one row; earlier rows are kept |
| `BudgetTracker.Tracker.Append` | budget_tracker.py:34-35 | the record is appended to the ledger and the file; totals move by its contribution; the breakdown takes one loop turn; `Persisted()` is kept |
| `BudgetTracker.Tracker.AddIncome` | budget_tracker.py:26-35 | appends exactly one record (income, amount, description, category `income`, date) and keeps every earlier one; total income rises by the amount; total expense and the breakdown are unchanged; `Persisted()` is kept |
| `BudgetTracker.Tracker.AddExpense` | budget_tracker.py:38-47 | appends exactly one record (expense, amount, description, category, date) and keeps every earlier one; total expense rises by the amount; total income is unchanged; the breakdown adds the amount to its category; `Persisted()` is kept |
| `BudgetTracker.Tracker.ShowSummary` | budget_tracker.py:50-72 | the totals of the ledger; balance is income minus expense; the breakdown is present if and only if an expense exists, and then it is non-empty and sums to total expense; with no breakdown, total expense is 0 |

## Left out

- Console output: the `print` calls, two-decimal formatting, and the interactive menu loop `main` (budget_tracker.py:74-108).
- Floating-point amounts: amounts are `real`, so the model does not capture float rounding in the sums.
- The CSV byte format and `float()` parsing of arbitrary text. A row is either the header or a typed record. So the only parse failure modelled is a header row after the first, whose amount cell is the text `amount`. A row whose `type` is neither `income` nor `expense` cannot occur in the model.
- `Storage.Load`: when the first row is a record and more rows follow, the CSV reader keys the later rows by the first row's cells. The model reports `MissingAmountColumn`. That is what happens unless one of those cells is literally `amount`.
- Blank lines, quoting and other CSV reader details are not modelled.
- Read and write errors of the file system (permissions, full disk). The file name is not modelled either: the tracker has one file.
- The `datetime.now()` clock: the date of a new record is a parameter.
- `os.path.exists`: a missing file is the `None` argument of `Open`.
