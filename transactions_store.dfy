/** The Supabase-backed `useTransactions` hook: a local list of the user's transactions,
    kept in step with the results of the insert / update / delete calls, and a summary
    recomputed whenever the list changes.

    The backend calls themselves are not modelled: each method receives the response the
    call produced (the returned row, or an error; a thrown exception is handled by the
    hook exactly like a returned error). */
module TransactionsStore {
  import opened Types
  import opened TransactionSummary

  class TransactionStore {
    var transactions: seq<Transaction>
    var summary: Summary
    var loading: bool

    /** The hook's initial state: empty list, zero summary, `loading` true. */
    constructor ()
      ensures transactions == [] && loading
      ensures summary == Summary(0.0, 0.0, 0.0, 0.0, 0.0)
    {
      transactions := [];
      summary := Summary(0.0, 0.0, 0.0, 0.0, 0.0);
      loading := true;
    }

    /** The effect that copies `summaryMemo` into the `summary` state. */
    method RefreshSummary()
      modifies this`summary
      ensures summary.income == IncomeTotal(transactions)
      ensures summary.expenses == ExpenseTotal(transactions)
      ensures summary.balance == summary.income - summary.expenses
      ensures summary.incomeChange == 0.0 && summary.expenseChange == 0.0
    {
      summary := ComputeSummary(transactions);
    }

    /** `fetchTransactions`: without a user nothing happens; otherwise the list becomes the
        returned rows (`data || []`), an error leaves it as it was, and `loading` ends false. */
    method Fetch(hasUser: bool, response: Result<Option<seq<Transaction>>, string>) returns (toast: Toast)
      modifies this`transactions, this`loading
      ensures !hasUser ==> transactions == old(transactions) && loading == old(loading) && toast == NoToast
      ensures hasUser ==> !loading
      ensures hasUser && response.Err? ==> transactions == old(transactions) && toast == ErrorToast("Failed to load transactions")
      ensures hasUser && response.Ok? ==> toast == NoToast
      ensures hasUser && response.Ok? ==> transactions == (if response.value.Some? then response.value.value else [])
    {
      toast := NoToast;
      if !hasUser {
        return;
      }
      loading := true;
      match response {
        case Err(_) =>
          toast := ErrorToast("Failed to load transactions");
        case Ok(data) =>
          transactions := if data.Some? then data.value else [];
      }
      loading := false;
    }

    /** `addTransaction`: a successful insert prepends the returned row. */
    method Add(hasUser: bool, response: Result<Transaction, string>) returns (toast: Toast)
      modifies this`transactions
      ensures hasUser && response.Ok? ==> transactions == [response.value] + old(transactions)
      ensures hasUser && response.Ok? ==> toast == SuccessToast("Transaction added!")
      ensures hasUser && response.Err? ==> transactions == old(transactions)
      ensures hasUser && response.Err? ==> toast == ErrorToast("Failed to add transaction")
      ensures !hasUser ==> transactions == old(transactions) && toast == NoToast
    {
      if !hasUser {
        return NoToast;
      }
      match response
      case Err(_) =>
        toast := ErrorToast("Failed to add transaction");
      case Ok(row) =>
        transactions := [row] + transactions;
        toast := SuccessToast("Transaction added!");
    }

    /** `updateTransaction`: a successful update replaces every element carrying `id` by the
        returned row. */
    method Update(id: string, response: Result<Transaction, string>) returns (toast: Toast)
      modifies this`transactions
      ensures response.Ok? ==> transactions == ReplaceById(old(transactions), id, response.value)
      ensures response.Ok? ==> toast == SuccessToast("Transaction updated!")
      ensures response.Err? ==> transactions == old(transactions)
      ensures response.Err? ==> toast == ErrorToast("Failed to update transaction")
    {
      match response
      case Err(_) =>
        toast := ErrorToast("Failed to update transaction");
      case Ok(row) =>
        transactions := ReplaceById(transactions, id, row);
        toast := SuccessToast("Transaction updated!");
    }

    /** `deleteTransaction`: a successful delete filters out every element carrying `id`. */
    method Delete(id: string, error: Option<string>) returns (toast: Toast)
      modifies this`transactions
      ensures error.None? ==> transactions == RemoveById(old(transactions), id)
      ensures error.None? ==> toast == SuccessToast("Transaction deleted!")
      ensures error.Some? ==> transactions == old(transactions)
      ensures error.Some? ==> toast == ErrorToast("Failed to delete transaction")
    {
      if error.Some? {
        toast := ErrorToast("Failed to delete transaction");
      } else {
        transactions := RemoveById(transactions, id);
        toast := SuccessToast("Transaction deleted!");
      }
    }
  }

  /** A delete of an id that is no longer in the list (a repeated delete) keeps the list. */
  lemma {:induction false} DeleteTwiceIsDeleteOnce(s: seq<Transaction>, id: string)
    ensures RemoveById(RemoveById(s, id), id) == RemoveById(s, id)
  {
    var r := RemoveById(s, id);
    forall i | 0 <= i < |r| ensures r[i].id != id {
      assert r[i] in r;
    }
    RemoveByIdAbsent(r, id);
  }

  /** An update of an id that is absent leaves the list as it is. */
  lemma UpdateAbsentIdKeepsList(s: seq<Transaction>, id: string, row: Transaction)
    requires forall i :: 0 <= i < |s| ==> s[i].id != id
    ensures ReplaceById(s, id, row) == s
  {
  }
}
