/** The modal provider: which transaction modal is open, and the transaction it edits. */
module ModalContext {
  import opened Types

  /** 'addTransaction' | 'editTransaction' (the `null` of the source is `None`). */
  datatype ModalType = AddTransaction | EditTransaction

  class ModalState {
    var modalType: Option<ModalType>
    var transaction: Option<Transaction>

    constructor ()
      ensures modalType.None? && transaction.None?
    {
      modalType := None;
      transaction := None;
    }

    /** `openModal(type, transaction?)`: an omitted transaction is stored as `None`. */
    method OpenModal(t: Option<ModalType>, tx: Option<Transaction>)
      modifies this
      ensures modalType == t && transaction == tx
    {
      modalType := t;
      transaction := tx;
    }

    /** `closeModal`: both fields become `None`, whatever they were, so closing again
        changes nothing. */
    method CloseModal()
      modifies this
      ensures modalType.None? && transaction.None?
    {
      modalType := None;
      transaction := None;
    }

    /** The app shell's condition for mounting the transaction form. */
    function TransactionFormShown(): (shown: bool)
      reads this
      ensures shown <==> modalType.Some?
    {
      assert modalType.Some? ==>
        modalType == Some(modalType.value) && (modalType.value == AddTransaction || modalType.value == EditTransaction);
      modalType == Some(AddTransaction) || modalType == Some(EditTransaction)
    }
  }

  /** Closing twice leaves the same state as closing once, and hides the form. */
  method CloseTwice(m: ModalState) returns (shown: bool)
    modifies m
    ensures m.modalType.None? && m.transaction.None?
    ensures !shown
  {
    m.CloseModal();
    m.CloseModal();
    shown := m.TransactionFormShown();
  }
}
