/** The expense breakdown of `show_summary` (budget_tracker.py:61-72): one
    entry per category, holding the summed amount of the expense records of
    that category, in the order the categories first appear in the ledger. */
module Categories {

  import opened Ledger

  /** One line of the breakdown: a category and its summed expense. */
  datatype Entry = Entry(category: string, amount: real)

  /** The categories of a breakdown, in its order. */
  function Keys(es: seq<Entry>): (ks: seq<string>)
    ensures |ks| == |es|
    ensures forall i :: 0 <= i < |es| ==> ks[i] == es[i].category
  {
    if es == [] then [] else [es[0].category] + Keys(es[1..])
  }

  predicate Distinct(ks: seq<string>)
  {
    forall i, j :: 0 <= i < j < |ks| ==> ks[i] != ks[j]
  }

  /** The sum of the amounts of a breakdown. */
  function SumAmounts(es: seq<Entry>): real
  {
    if es == [] then 0.0 else es[0].amount + SumAmounts(es[1..])
  }

  /** One turn of the loop on an ordered dictionary: a category already
      present keeps its place and grows by `a`; a new one is added at the end,
      starting from 0. */
  function AddTo(es: seq<Entry>, c: string, a: real): seq<Entry>
  {
    if es == [] then [Entry(c, 0.0 + a)]
    else if es[0].category == c then [Entry(c, es[0].amount + a)] + es[1..]
    else [es[0]] + AddTo(es[1..], c, a)
  }

  /** One turn of the loop of `show_summary` (budget_tracker.py:65-69): an
      expense record adds its amount to its category; any other record
      leaves the breakdown as it is. */
  function Step(es: seq<Entry>, t: Transaction): seq<Entry>
  {
    if t.kind == Expense then AddTo(es, t.category, t.amount) else es
  }

  /** The breakdown of a ledger: the loop of `show_summary` run over its
      records from first to last, starting from an empty dictionary. */
  function CategoryTotals(ts: seq<Transaction>): seq<Entry>
    decreases |ts|
  {
    if ts == [] then [] else Step(CategoryTotals(ts[..|ts| - 1]), ts[|ts| - 1])
  }

  // ---------------------------------------------------------------------
  // Reference definitions the breakdown is proved against.

  /** The categories of the expense records of a ledger. */
  ghost function ExpenseCategories(ts: seq<Transaction>): set<string>
  {
    set i | 0 <= i < |ts| && ts[i].kind == Expense :: ts[i].category
  }

  predicate IsExpenseOf(t: Transaction, c: string)
  {
    t.kind == Expense && t.category == c
  }

  /** The sum of the amounts of the expense records of category `c`. */
  function Spent(ts: seq<Transaction>, c: string): real
    decreases |ts|
  {
    if ts == [] then 0.0
    else Spent(ts[..|ts| - 1], c) + (if IsExpenseOf(ts[|ts| - 1], c) then ts[|ts| - 1].amount else 0.0)
  }

  /** The position of the first expense record of category `c`, or the
      length of the ledger when there is none. */
  function FirstSeen(ts: seq<Transaction>, c: string): (p: nat)
    ensures p <= |ts|
    ensures p < |ts| ==> IsExpenseOf(ts[p], c)
    ensures forall j :: 0 <= j < p ==> !IsExpenseOf(ts[j], c)
  {
    if ts == [] then 0
    else if IsExpenseOf(ts[0], c) then 0
    else 1 + FirstSeen(ts[1..], c)
  }

  // ---------------------------------------------------------------------
  // One turn of the loop.

  lemma {:induction false} AddToKeys(es: seq<Entry>, c: string, a: real)
    ensures Keys(AddTo(es, c, a)) == if c in Keys(es) then Keys(es) else Keys(es) + [c]
  {
    if es != [] {
      if es[0].category != c {
        AddToKeys(es[1..], c, a);
        assert Keys(es) == [es[0].category] + Keys(es[1..]);
      }
    }
  }

  lemma {:induction false} AddToSum(es: seq<Entry>, c: string, a: real)
    ensures SumAmounts(AddTo(es, c, a)) == SumAmounts(es) + a
  {
    if es != [] && es[0].category != c {
      AddToSum(es[1..], c, a);
    }
  }

  lemma DistinctTail(es: seq<Entry>)
    requires es != [] && Distinct(Keys(es))
    ensures Keys(es) == [es[0].category] + Keys(es[1..])
    ensures Distinct(Keys(es[1..])) && es[0].category !in Keys(es[1..])
  {
  }

  /** With distinct keys, the entry of `c` grows by `a` and every other entry
      keeps its amount. */
  lemma {:induction false} AddToAmounts(es: seq<Entry>, c: string, a: real)
    requires Distinct(Keys(es))
    ensures |AddTo(es, c, a)| == |es| + (if c in Keys(es) then 0 else 1)
    ensures forall i :: 0 <= i < |es| ==>
      AddTo(es, c, a)[i].amount == es[i].amount + (if es[i].category == c then a else 0.0)
    ensures c !in Keys(es) ==> AddTo(es, c, a)[|es|] == Entry(c, a)
  {
    AddToKeys(es, c, a);
    if es != [] {
      DistinctTail(es);
      var r := AddTo(es, c, a);
      var tail := es[1..];
      if es[0].category == c {
        forall i | 1 <= i < |es| ensures es[i].category != c {
          assert Keys(tail)[i - 1] == tail[i - 1].category;
        }
      } else {
        AddToAmounts(tail, c, a);
        forall i | 1 <= i < |r| ensures r[i] == AddTo(tail, c, a)[i - 1] {
        }
      }
    }
  }

  // ---------------------------------------------------------------------
  // One more record in the ledger.

  ghost predicate KeysAre(es: seq<Entry>, ts: seq<Transaction>)
  {
    forall c :: c in Keys(es) <==> c in ExpenseCategories(ts)
  }

  ghost predicate AmountsMatch(es: seq<Entry>, ts: seq<Transaction>)
  {
    forall i :: 0 <= i < |es| ==> es[i].amount == Spent(ts, es[i].category)
  }

  ghost predicate InFirstSeenOrder(es: seq<Entry>, ts: seq<Transaction>)
  {
    forall i, j :: 0 <= i < j < |es| ==> FirstSeen(ts, es[i].category) < FirstSeen(ts, es[j].category)
  }

  lemma CategoryTotalsAppend(ts: seq<Transaction>, t: Transaction)
    ensures CategoryTotals(ts + [t]) == Step(CategoryTotals(ts), t)
  {
  }

  lemma SpentAppend(ts: seq<Transaction>, t: Transaction, c: string)
    ensures Spent(ts + [t], c) == Spent(ts, c) + (if IsExpenseOf(t, c) then t.amount else 0.0)
  {
  }

  lemma ExpenseCategoriesAppend(ts: seq<Transaction>, t: Transaction)
    ensures ExpenseCategories(ts + [t]) == ExpenseCategories(ts) + (if t.kind == Expense then {t.category} else {})
  {
    var s := ts + [t];
    forall c | c in ExpenseCategories(s)
      ensures c in ExpenseCategories(ts) || (t.kind == Expense && c == t.category)
    {
      var i :| 0 <= i < |s| && s[i].kind == Expense && s[i].category == c;
      if i < |ts| {
        assert ts[i] == s[i];
      }
    }
    forall c | c in ExpenseCategories(ts) ensures c in ExpenseCategories(s) {
      var i :| 0 <= i < |ts| && ts[i].kind == Expense && ts[i].category == c;
      assert s[i] == ts[i];
    }
    if t.kind == Expense {
      assert s[|ts|] == t;
    }
  }

  /** Where a category is first seen in a ledger with one more record. */
  lemma FirstSeenAppend(ts: seq<Transaction>, t: Transaction, c: string)
    ensures c in ExpenseCategories(ts) ==> FirstSeen(ts + [t], c) == FirstSeen(ts, c) < |ts|
    ensures c !in ExpenseCategories(ts) && IsExpenseOf(t, c) ==> FirstSeen(ts + [t], c) == |ts|
  {
    var s := ts + [t];
    var p := FirstSeen(ts, c);
    if c in ExpenseCategories(ts) {
      var i :| 0 <= i < |ts| && ts[i].kind == Expense && ts[i].category == c;
      assert p <= i;
      assert s[p] == ts[p];
    } else if IsExpenseOf(t, c) {
      assert s[|ts|] == t;
    }
  }

  lemma StepKeys(es: seq<Entry>, ts: seq<Transaction>, t: Transaction)
    requires KeysAre(es, ts)
    ensures KeysAre(Step(es, t), ts + [t])
  {
    ExpenseCategoriesAppend(ts, t);
    if t.kind == Expense {
      AddToKeys(es, t.category, t.amount);
    }
  }

  lemma StepAmounts(es: seq<Entry>, ts: seq<Transaction>, t: Transaction)
    requires Distinct(Keys(es)) && AmountsMatch(es, ts)
    requires t.category !in Keys(es) ==> t.category !in ExpenseCategories(ts)
    ensures AmountsMatch(Step(es, t), ts + [t])
  {
    var r := Step(es, t);
    forall i | 0 <= i < |r| ensures r[i].amount == Spent(ts + [t], r[i].category) {
      if i < |es| {
        assert es[i].amount == Spent(ts, es[i].category);
        ExpenseAt(es, t, i);
        SpentAppend(ts, t, es[i].category);
      } else {
        NewExpenseAt(es, t);
        NotSeenNotSpent(ts, t.category);
        SpentAppend(ts, t, t.category);
      }
    }
  }

  /** An entry already in the breakdown keeps its place and category, and
      grows by the amount of the record when it is an expense of that
      category. */
  lemma ExpenseAt(es: seq<Entry>, t: Transaction, i: nat)
    requires Distinct(Keys(es)) && i < |es|
    ensures i < |Step(es, t)| && Step(es, t)[i].category == es[i].category
    ensures Step(es, t)[i].amount == es[i].amount + (if IsExpenseOf(t, es[i].category) then t.amount else 0.0)
  {
    if t.kind == Expense {
      AddToAmounts(es, t.category, t.amount);
      AddToKeys(es, t.category, t.amount);
      assert Keys(Step(es, t))[i] == Keys(es)[i];
    }
  }

  /** An entry past the old end of the breakdown is the new category of an
      expense record, holding that record's amount. */
  lemma NewExpenseAt(es: seq<Entry>, t: Transaction)
    requires Distinct(Keys(es)) && |es| < |Step(es, t)|
    ensures t.kind == Expense && t.category !in Keys(es)
    ensures Step(es, t)[|es|] == Entry(t.category, t.amount)
  {
  }

  lemma StepOrder(es: seq<Entry>, ts: seq<Transaction>, t: Transaction)
    requires KeysAre(es, ts) && InFirstSeenOrder(es, ts)
    ensures InFirstSeenOrder(Step(es, t), ts + [t])
  {
    var r := Step(es, t);
    forall i | 0 <= i < |es| ensures FirstSeen(ts + [t], es[i].category) == FirstSeen(ts, es[i].category) < |ts| {
      assert Keys(es)[i] == es[i].category;
      FirstSeenAppend(ts, t, es[i].category);
    }
    if t.kind == Expense {
      var c := t.category;
      AddToKeys(es, c, t.amount);
      forall i, j | 0 <= i < j < |r|
        ensures FirstSeen(ts + [t], r[i].category) < FirstSeen(ts + [t], r[j].category)
      {
        assert r[i].category == Keys(r)[i] == Keys(es)[i] == es[i].category;
        if j < |es| {
          assert r[j].category == Keys(r)[j] == Keys(es)[j] == es[j].category;
        } else {
          assert r[j].category == c;
          FirstSeenAppend(ts, t, c);
        }
      }
    }
  }

  // ---------------------------------------------------------------------
  // What the breakdown of a ledger is.

  /** Every category is listed once. */
  lemma {:induction false} CategoryTotalsDistinct(ts: seq<Transaction>)
    ensures Distinct(Keys(CategoryTotals(ts)))
    decreases |ts|
  {
    if ts != [] {
      var prefix := ts[..|ts| - 1];
      var t := ts[|ts| - 1];
      CategoryTotalsDistinct(prefix);
      if t.kind == Expense {
        AddToKeys(CategoryTotals(prefix), t.category, t.amount);
      }
    }
  }

  /** The listed categories are exactly those of the expense records. */
  lemma {:induction false} CategoryTotalsKeys(ts: seq<Transaction>)
    ensures forall c :: c in Keys(CategoryTotals(ts)) <==> c in ExpenseCategories(ts)
    decreases |ts|
  {
    if ts != [] {
      var prefix := ts[..|ts| - 1];
      var t := ts[|ts| - 1];
      assert ts == prefix + [t];
      CategoryTotalsKeys(prefix);
      StepKeys(CategoryTotals(prefix), prefix, t);
    }
  }

  /** The breakdown is empty exactly when the ledger holds no expense, so the
      breakdown that is shown is never an empty listing. */
  lemma CategoryTotalsEmpty(ts: seq<Transaction>)
    ensures CategoryTotals(ts) == [] <==> !HasExpense(ts)
  {
  }

  /** A category without expense records has spent nothing. */
  lemma {:induction false} NotSeenNotSpent(ts: seq<Transaction>, c: string)
    requires c !in ExpenseCategories(ts)
    ensures Spent(ts, c) == 0.0
    decreases |ts|
  {
    if ts != [] {
      var prefix := ts[..|ts| - 1];
      NotSeenNotSpent(prefix, c);
    }
  }

  /** Each listed amount is the sum of the expenses of its category. */
  lemma {:induction false} CategoryTotalsAmounts(ts: seq<Transaction>)
    ensures forall i :: 0 <= i < |CategoryTotals(ts)| ==>
      CategoryTotals(ts)[i].amount == Spent(ts, CategoryTotals(ts)[i].category)
    decreases |ts|
  {
    if ts != [] {
      var prefix := ts[..|ts| - 1];
      var t := ts[|ts| - 1];
      assert ts == prefix + [t];
      CategoryTotalsAmounts(prefix);
      CategoryTotalsKeys(prefix);
      CategoryTotalsDistinct(prefix);
      StepAmounts(CategoryTotals(prefix), prefix, t);
    }
  }

  /** The categories are listed in the order of their first expense record. */
  lemma {:induction false} CategoryTotalsOrder(ts: seq<Transaction>)
    ensures forall i, j :: 0 <= i < j < |CategoryTotals(ts)| ==>
      FirstSeen(ts, CategoryTotals(ts)[i].category) < FirstSeen(ts, CategoryTotals(ts)[j].category)
    decreases |ts|
  {
    if ts != [] {
      var prefix := ts[..|ts| - 1];
      var t := ts[|ts| - 1];
      assert ts == prefix + [t];
      CategoryTotalsOrder(prefix);
      CategoryTotalsKeys(prefix);
      StepOrder(CategoryTotals(prefix), prefix, t);
    }
  }

  /** The amounts of the breakdown add up to the total expense. */
  lemma {:induction false} CategoryTotalsSum(ts: seq<Transaction>)
    ensures SumAmounts(CategoryTotals(ts)) == TotalExpense(ts)
    decreases |ts|
  {
    if ts != [] {
      var prefix := ts[..|ts| - 1];
      var t := ts[|ts| - 1];
      CategoryTotalsSum(prefix);
      if t.kind == Expense {
        AddToSum(CategoryTotals(prefix), t.category, t.amount);
      }
    }
  }

  // ---------------------------------------------------------------------
  // The loop itself, over an insertion-ordered dictionary.

  /** The entries of an insertion-ordered dictionary (`dict.items()`): the
      keys in `order`, the order they were inserted in, each with its value
      in `m`. */
  function Items(order: seq<string>, m: map<string, real>): seq<Entry>
    requires forall k :: k in order ==> k in m
  {
    if order == [] then [] else [Entry(order[0], m[order[0]])] + Items(order[1..], m)
  }

  lemma {:induction false} ItemsKeys(order: seq<string>, m: map<string, real>)
    requires forall k :: k in order ==> k in m
    ensures Keys(Items(order, m)) == order
  {
    if order != [] {
      ItemsKeys(order[1..], m);
    }
  }

  /** A key not yet in the dictionary goes to the end of its items. */
  lemma {:induction false} ItemsInsert(order: seq<string>, m: map<string, real>, c: string, v: real)
    requires forall k :: k in order ==> k in m
    requires c !in order
    ensures Items(order + [c], m[c := v]) == Items(order, m) + [Entry(c, v)]
  {
    if order == [] {
      assert order + [c] == [c];
    } else {
      assert (order + [c])[1..] == order[1..] + [c];
      ItemsInsert(order[1..], m, c, v);
    }
  }

  /** Updating the value of a key already present changes that one entry in
      place, as one turn of the loop does to the breakdown. */
  lemma {:induction false} ItemsUpdate(order: seq<string>, m: map<string, real>, c: string, a: real)
    requires forall k :: k in order ==> k in m
    requires Distinct(order) && c in order
    ensures Items(order, m[c := m[c] + a]) == AddTo(Items(order, m), c, a)
  {
    if order[0] == c {
      assert c !in order[1..] by {
        forall i | 0 <= i < |order[1..]| ensures order[1..][i] != c {
          assert order[i + 1] != order[0];
        }
      }
      ItemsUnchanged(order[1..], m, c, m[c] + a);
    } else {
      assert Distinct(order[1..]) by {
        forall i, j | 0 <= i < j < |order[1..]| ensures order[1..][i] != order[1..][j] {
          assert order[i + 1] != order[j + 1];
        }
      }
      ItemsUpdate(order[1..], m, c, a);
    }
  }

  /** Changing the value of a key that is not listed leaves the items alone. */
  lemma {:induction false} ItemsUnchanged(order: seq<string>, m: map<string, real>, c: string, v: real)
    requires forall k :: k in order ==> k in m
    requires c !in order
    ensures Items(order, m[c := v]) == Items(order, m)
  {
    if order != [] {
      ItemsUnchanged(order[1..], m, c, v);
    }
  }

  /** A category not yet in the breakdown goes to its end, starting at 0. */
  lemma {:induction false} AddToNew(es: seq<Entry>, c: string, a: real)
    requires c !in Keys(es)
    ensures AddTo(es, c, a) == es + [Entry(c, 0.0 + a)]
  {
    if es != [] {
      assert Keys(es)[0] == es[0].category;
      assert c !in Keys(es[1..]) by {
        forall i | 0 <= i < |es[1..]| ensures Keys(es[1..])[i] != c {
          assert Keys(es)[i + 1] == es[i + 1].category;
        }
      }
      AddToNew(es[1..], c, a);
    }
  }

  /** A turn of the loop on a category the dictionary does not hold yet:
      its value starts at 0 and the key goes last. */
  lemma NewCategoryTurn(order: seq<string>, m: map<string, real>, c: string, a: real)
    requires forall k :: k in m <==> k in order
    requires Distinct(order) && c !in m
    ensures Distinct(order + [c])
    ensures Items(order + [c], m[c := 0.0 + a]) == AddTo(Items(order, m), c, a)
  {
    ItemsKeys(order, m);
    AddToNew(Items(order, m), c, a);
    ItemsInsert(order, m, c, 0.0 + a);
  }

  /** The items depend only on the values of the listed keys. */
  lemma {:induction false} ItemsAgree(order: seq<string>, m: map<string, real>, n: map<string, real>)
    requires forall k :: k in order ==> k in m && k in n && m[k] == n[k]
    ensures Items(order, m) == Items(order, n)
  {
    if order != [] {
      ItemsAgree(order[1..], m, n);
    }
  }

  /** The category loop of `show_summary` (budget_tracker.py:63-69): a
      dictionary filled in one pass over the ledger, whose items, in
      insertion order, are the breakdown. */
  method Breakdown(ts: seq<Transaction>) returns (es: seq<Entry>)
    ensures es == CategoryTotals(ts)
  {
    var categories: map<string, real> := map[];
    var order: seq<string> := [];
    for i := 0 to |ts|
      invariant forall k :: k in categories <==> k in order
      invariant Distinct(order)
      invariant Items(order, categories) == CategoryTotals(ts[..i])
    {
      var t := ts[i];
      if t.kind == Expense {
        var category := t.category;
        ghost var before := categories;
        ghost var isNew := category !in categories;
        if category !in categories {
          NewCategoryTurn(order, categories, category, t.amount);
          categories := categories[category := 0.0];
          order := order + [category];
        } else {
          ItemsUpdate(order, categories, category, t.amount);
        }
        categories := categories[category := categories[category] + t.amount];
        if isNew {
          ItemsAgree(order, categories, before[category := 0.0 + t.amount]);
        }
      }
      assert ts[..i + 1] == ts[..i] + [t];
      CategoryTotalsAppend(ts[..i], t);
    }
    assert ts[..|ts|] == ts;
    es := Items(order, categories);
  }
}
