/** The Firestore-backed transactions provider. Its list is written only by the real-time
    listener (the add / update / delete actions write to Firestore and let the listener
    deliver the new list), and its summary is the same single-pass fold as the hook's. */
module TransactionsContext {
  import opened Types
  import opened TransactionSummary

  class TransactionsProvider {
    var transactions: seq<Transaction>
    var loading: bool

    constructor ()
      ensures transactions == [] && loading
    {
      transactions := [];
      loading := true;
    }

    /** The effect that runs when `user` changes: with no user the list is emptied and
        loading stops; with a user loading starts until the listener reports. */
    method OnUserChanged(hasUser: bool)
      modifies this
      ensures !hasUser ==> transactions == [] && !loading
      ensures hasUser ==> transactions == old(transactions) && loading
    {
      if !hasUser {
        transactions := [];
        loading := false;
        return;
      }
      loading := true;
    }

    /** The listener's snapshot callback: the list becomes the delivered documents. */
    method OnSnapshot(docs: seq<Transaction>)
      modifies this
      ensures transactions == docs && !loading
    {
      transactions := docs;
      loading := false;
    }

    /** The listener's error callback: the list is kept and loading stops. */
    method OnSnapshotError() returns (toast: Toast)
      modifies this
      ensures transactions == old(transactions) && !loading
      ensures toast == ErrorToast("Failed to load transactions")
    {
      loading := false;
      toast := ErrorToast("Failed to load transactions");
    }

    /** The memoised `summary` of the provider's current list. */
    method CurrentSummary() returns (s: Summary)
      ensures s.income == IncomeTotal(transactions) && s.expenses == ExpenseTotal(transactions)
      ensures s.balance == s.income - s.expenses
      ensures s.incomeChange == 0.0 && s.expenseChange == 0.0
      ensures transactions == [] ==> s == Summary(0.0, 0.0, 0.0, 0.0, 0.0)
    {
      s := ComputeSummary(transactions);
    }
  }

  /** Signing out empties the list, so the summary shown afterwards is all zero. */
  method SummaryAfterSignOut(p: TransactionsProvider) returns (s: Summary)
    modifies p
    ensures s == Summary(0.0, 0.0, 0.0, 0.0, 0.0)
    ensures !p.loading
  {
    p.OnUserChanged(false);
    s := p.CurrentSummary();
  }
}
