/** The add / edit transaction form: prefill and reset, the category reset on a type change,
    the submission guards and the choice between an add and an update. */
module AddTransactionScreen {
  import opened Types

  const InvalidAmount := "Please enter a valid, positive amount."
  const MissingDescription := "Please enter a description."
  const MissingCategory := "Please select a category."

  /** The three guards of `handleSubmit`, in order; `parsedAmount` is `parseFloat(amount)`,
      `None` standing for `NaN`. The first failing guard gives the message. */
  function CheckSubmission(parsedAmount: Option<real>, description: string, categoryId: string): (error: Option<string>)
    ensures error.None? <==> parsedAmount.Some? && parsedAmount.value > 0.0 && description != "" && categoryId != ""
    ensures error == Some(InvalidAmount) <==> parsedAmount.None? || parsedAmount.value <= 0.0
    ensures error == Some(MissingDescription) <==>
      parsedAmount.Some? && parsedAmount.value > 0.0 && description == ""
    ensures error == Some(MissingCategory) <==>
      parsedAmount.Some? && parsedAmount.value > 0.0 && description != "" && categoryId == ""
  {
    if parsedAmount.None? || parsedAmount.value <= 0.0 then Some(InvalidAmount)
    else if description == "" then Some(MissingDescription)
    else if categoryId == "" then Some(MissingCategory)
    else None
  }

  /** `transactionData` */
  datatype TxDraft = TxDraft(amount: real, description: string, categoryId: string, transactionDate: string, txType: TxType, notes: string)

  /** The one call a valid submission makes. */
  datatype SaveCall = AddCall(data: TxDraft) | UpdateCall(id: string, data: TxDraft)

  class TransactionForm {
    var txType: TxType
    var amount: string
    var description: string
    var categoryId: string
    var transactionDate: string
    var notes: string
    var isSubmitting: bool

    /** The initial state; `today` is `new Date().toISOString().split('T')[0]`. */
    constructor (today: string)
      ensures txType == Expense && amount == "" && description == "" && categoryId == ""
      ensures transactionDate == today && notes == "" && !isSubmitting
    {
      txType := Expense;
      amount := "";
      description := "";
      categoryId := "";
      transactionDate := today;
      notes := "";
      isSubmitting := false;
    }

    /** The effect on `transaction`: an edited transaction is copied into the form, otherwise
        the form is reset. `formatAmount` stands for `amount.toString()`. */
    method Prefill(tx: Option<Transaction>, today: string, formatAmount: real -> string)
      modifies this`txType, this`amount, this`description, this`categoryId, this`transactionDate, this`notes
      ensures tx.Some? ==> txType == tx.value.txType && amount == formatAmount(tx.value.amount)
      ensures tx.Some? ==> description == tx.value.description && categoryId == tx.value.categoryId
      ensures tx.Some? ==> transactionDate == tx.value.transactionDate
      ensures tx.Some? ==> notes == (if tx.value.notes.Some? then tx.value.notes.value else "")
      ensures tx.None? ==> txType == Expense && amount == "" && description == "" && categoryId == ""
      ensures tx.None? ==> transactionDate == today && notes == ""
    {
      match tx {
        case Some(t) =>
          txType := t.txType;
          amount := formatAmount(t.amount);
          description := t.description;
          categoryId := t.categoryId;
          transactionDate := t.transactionDate;
          notes := if t.notes.Some? && t.notes.value != "" then t.notes.value else "";
        case None =>
          txType := Expense;
          amount := "";
          description := "";
          categoryId := "";
          transactionDate := today;
          notes := "";
      }
    }

    /** Selecting a type with the toggle. */
    method SetType(t: TxType)
      modifies this`txType
      ensures txType == t
    {
      txType := t;
    }

    /** The effect on `[type, isEditing]`: the category is cleared only when adding. */
    method OnTypeChanged(isEditing: bool)
      modifies this`categoryId
      ensures !isEditing ==> categoryId == ""
      ensures isEditing ==> categoryId == old(categoryId)
    {
      if !isEditing {
        categoryId := "";
      }
    }

    /** The submission's data, once the amount has parsed to `a`. */
    function Draft(a: real): (d: TxDraft)
      reads this
      ensures d.amount == a && d.txType == txType && d.notes == notes
      ensures d.description == description && d.categoryId == categoryId && d.transactionDate == transactionDate
    {
      TxDraft(a, description, categoryId, transactionDate, txType, notes)
    }

    /** `handleSubmit`: a failing guard reports its message and saves nothing; otherwise
        exactly one call is made, an update of the edited transaction's id or an add, and the
        modal closes. The hook's own error handling means the awaited call never throws, so
        the modal closes whatever the call's outcome. */
    method Submit(editing: Option<Transaction>, parseAmount: string -> Option<real>)
      returns (call: Option<SaveCall>, error: Option<string>, closed: bool)
      modifies this`isSubmitting
      ensures error == CheckSubmission(parseAmount(amount), description, categoryId)
      ensures error.Some? ==> call.None? && !closed && isSubmitting == old(isSubmitting)
      ensures error.None? ==> closed && !isSubmitting
      ensures error.None? && editing.Some? ==> call == Some(UpdateCall(editing.value.id, Draft(parseAmount(amount).value)))
      ensures error.None? && editing.None? ==> call == Some(AddCall(Draft(parseAmount(amount).value)))
    {
      var parsed := parseAmount(amount);
      error := CheckSubmission(parsed, description, categoryId);
      if error.Some? {
        call := None;
        closed := false;
        return;
      }
      isSubmitting := true;
      var data := Draft(parsed.value);
      if editing.Some? {
        call := Some(UpdateCall(editing.value.id, data));
      } else {
        call := Some(AddCall(data));
      }
      isSubmitting := false;
      closed := true;
    }

    /** The category picker's list: exactly the categories of the selected type. */
    function FilteredCategories(categories: seq<Category>): (shown: seq<Category>)
      reads this
      ensures forall c :: c in shown ==> c in categories && c.catType == txType
      ensures forall c :: c in categories && c.catType == txType ==> c in shown
    {
      OfType(categories, txType)
    }
  }
}
