/** The dashboard summary: one pass over the loaded transactions accumulating income and
    expenses. The same loop appears in the `useTransactions` hook and in the Firestore
    transactions provider; it is defined once here and used by both models. */
module TransactionSummary {
  import opened Types

  datatype Summary = Summary(income: real, expenses: real, balance: real, incomeChange: real, expenseChange: real)

  /** Sum of the amounts of the income-typed transactions. */
  function IncomeTotal(txs: seq<Transaction>): real
  {
    if txs == [] then 0.0
    else
      var last := txs[|txs| - 1];
      IncomeTotal(txs[..|txs| - 1]) + (if last.txType == Income then last.amount else 0.0)
  }

  /** Sum of the amounts of every transaction that is not income-typed. */
  function ExpenseTotal(txs: seq<Transaction>): real
  {
    if txs == [] then 0.0
    else
      var last := txs[|txs| - 1];
      ExpenseTotal(txs[..|txs| - 1]) + (if last.txType == Income then 0.0 else last.amount)
  }

  /** Sum of all amounts, independent of type. */
  function SumAmounts(txs: seq<Transaction>): real
  {
    if txs == [] then 0.0 else txs[0].amount + SumAmounts(txs[1..])
  }

  /** The transactions of one type, in order. */
  function WithType(txs: seq<Transaction>, t: TxType): seq<Transaction>
  {
    if txs == [] then [] else (if txs[0].txType == t then [txs[0]] else []) + WithType(txs[1..], t)
  }

  /** The `for` loop of `summaryMemo`: income, expenses, balance and the two (always zero)
      change fields. */
  method ComputeSummary(txs: seq<Transaction>) returns (s: Summary)
    ensures s.income == IncomeTotal(txs) && s.expenses == ExpenseTotal(txs)
    ensures s.balance == s.income - s.expenses
    ensures s.incomeChange == 0.0 && s.expenseChange == 0.0
    ensures txs == [] ==> s == Summary(0.0, 0.0, 0.0, 0.0, 0.0)
  {
    var income := 0.0;
    var expenses := 0.0;
    for i := 0 to |txs|
      invariant income == IncomeTotal(txs[..i])
      invariant expenses == ExpenseTotal(txs[..i])
    {
      assert txs[..i + 1][..i] == txs[..i];
      if txs[i].txType == Income {
        income := income + txs[i].amount;
      } else {
        expenses := expenses + txs[i].amount;
      }
    }
    assert txs[..|txs|] == txs;
    s := Summary(income, expenses, income - expenses, 0.0, 0.0);
  }

  lemma {:induction false} IncomeTotalAppend(a: seq<Transaction>, b: seq<Transaction>)
    ensures IncomeTotal(a + b) == IncomeTotal(a) + IncomeTotal(b)
    ensures ExpenseTotal(a + b) == ExpenseTotal(a) + ExpenseTotal(b)
    decreases |b|
  {
    if b == [] {
      assert a + b == a;
    } else {
      var b' := b[..|b| - 1];
      assert (a + b)[..|a + b| - 1] == a + b';
      IncomeTotalAppend(a, b');
    }
  }

  lemma {:induction false} SumAmountsAppend(a: seq<Transaction>, b: seq<Transaction>)
    ensures SumAmounts(a + b) == SumAmounts(a) + SumAmounts(b)
  {
    if a == [] {
      assert a + b == b;
    } else {
      assert (a + b)[1..] == a[1..] + b;
      SumAmountsAppend(a[1..], b);
    }
  }

  /** Income is the sum over the income rows, and expenses the sum over the expense rows:
      since a type is income or expense, "every non-income row" is exactly the expense rows. */
  lemma {:induction false} TotalsAreSumsByType(txs: seq<Transaction>)
    ensures IncomeTotal(txs) == SumAmounts(WithType(txs, Income))
    ensures ExpenseTotal(txs) == SumAmounts(WithType(txs, Expense))
  {
    if txs != [] {
      var head := [txs[0]];
      var tail := txs[1..];
      assert txs == head + tail;
      TotalsAreSumsByType(tail);
      IncomeTotalAppend(head, tail);
      assert head[..0] == [];
      assert ExpenseTotal(head) == (if txs[0].txType == Income then 0.0 else txs[0].amount);
      assert IncomeTotal(head) == (if txs[0].txType == Income then txs[0].amount else 0.0);
      SumAmountsAppend(if txs[0].txType == Income then head else [], WithType(tail, Income));
      SumAmountsAppend(if txs[0].txType == Expense then head else [], WithType(tail, Expense));
    }
  }

  /** Every amount is counted exactly once: income plus expenses is the total of all amounts. */
  lemma {:induction false} TotalsPartitionAmounts(txs: seq<Transaction>)
    ensures IncomeTotal(txs) + ExpenseTotal(txs) == SumAmounts(txs)
    decreases |txs|
  {
    if txs != [] {
      var head := [txs[0]];
      assert txs == head + txs[1..];
      IncomeTotalAppend(head, txs[1..]);
      SumAmountsAppend(head, txs[1..]);
      assert head[..0] == [];
      TotalsPartitionAmounts(txs[1..]);
    }
  }

  /** Prepending a row (what a successful add does) moves exactly one total by its amount. */
  lemma PrependEffect(row: Transaction, txs: seq<Transaction>)
    ensures IncomeTotal([row] + txs) == IncomeTotal(txs) + (if row.txType == Income then row.amount else 0.0)
    ensures ExpenseTotal([row] + txs) == ExpenseTotal(txs) + (if row.txType == Income then 0.0 else row.amount)
  {
    IncomeTotalAppend([row], txs);
    assert [row][..0] == [];
  }
}
