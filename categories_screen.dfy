/** The categories screen: the add form, the type tabs, and the popup / edit / delete
    handlers. The category backend calls are represented by the requests the handlers
    issue. */
module CategoriesScreen {
  import opened Types
  import opened Text

  /** `addCategory({ name, type })` */
  datatype AddRequest = AddRequest(name: string, catType: TxType)
  /** `updateCategory(id, { name, type })` */
  datatype UpdateRequest = UpdateRequest(id: string, name: string, catType: TxType)

  class AddCategoryForm {
    var name: string
    var catType: TxType

    constructor ()
      ensures name == "" && catType == Expense
    {
      name := "";
      catType := Expense;
    }

    /** `handleSubmit`: a name that is blank after trimming does nothing; otherwise `onAdd`
        receives the trimmed name and the form resets. */
    method Submit() returns (added: Option<AddRequest>)
      modifies this
      ensures AllWhitespace(old(name)) ==> added.None? && name == old(name) && catType == old(catType)
      ensures !AllWhitespace(old(name)) ==> added == Some(AddRequest(Trim(old(name)), old(catType)))
      ensures !AllWhitespace(old(name)) ==> name == "" && catType == Expense
      ensures added.Some? ==> added.value.name != "" && !IsWhitespace(added.value.name[0])
    {
      var trimmed := Trim(name);
      if trimmed != "" {
        added := Some(AddRequest(trimmed, catType));
        name := "";
        catType := Expense;
      } else {
        added := None;
      }
    }
  }

  class CategoriesScreen {
    var activeTab: TxType
    var showAddForm: bool
    var categoryToDelete: Option<Category>
    var categoryToEdit: Option<Category>
    var selectedCategory: Option<Category>

    constructor ()
      ensures activeTab == Expense && !showAddForm
      ensures categoryToDelete.None? && categoryToEdit.None? && selectedCategory.None?
    {
      activeTab := Expense;
      showAddForm := false;
      categoryToDelete := None;
      categoryToEdit := None;
      selectedCategory := None;
    }

    /** The listed categories: exactly those of the active tab's type, in order. */
    function FilteredCategories(categories: seq<Category>): (shown: seq<Category>)
      reads this
      ensures forall c :: c in shown ==> c in categories && c.catType == activeTab
      ensures forall c :: c in categories && c.catType == activeTab ==> c in shown
    {
      OfType(categories, activeTab)
    }

    method SelectTab(t: TxType)
      modifies this`activeTab
      ensures activeTab == t
    {
      activeTab := t;
    }

    /** The header's plus button. */
    method ToggleAddForm()
      modifies this`showAddForm
      ensures showAddForm == !old(showAddForm)
    {
      showAddForm := !showAddForm;
    }

    /** The add form's Cancel button. */
    method CancelAddForm()
      modifies this`showAddForm
      ensures !showAddForm
    {
      showAddForm := false;
    }

    /** `handleAddCategory`: issues the add and hides the form. */
    method HandleAddCategory(name: string, t: TxType) returns (request: AddRequest)
      modifies this`showAddForm
      ensures request == AddRequest(name, t)
      ensures !showAddForm
    {
      request := AddRequest(name, t);
      showAddForm := false;
    }

    /** `handleConfirmDelete`: deletes the pending category, if any, and clears it. */
    method HandleConfirmDelete() returns (deletedId: Option<string>)
      modifies this`categoryToDelete
      ensures old(categoryToDelete).Some? ==> deletedId == Some(old(categoryToDelete).value.id)
      ensures old(categoryToDelete).None? ==> deletedId.None?
      ensures categoryToDelete.None?
    {
      if categoryToDelete.Some? {
        deletedId := Some(categoryToDelete.value.id);
        categoryToDelete := None;
      } else {
        deletedId := None;
      }
    }

    /** The delete confirmation's close button. */
    method CancelDelete()
      modifies this`categoryToDelete
      ensures categoryToDelete.None?
    {
      categoryToDelete := None;
    }

    /** `handleSaveCategory`: issues the update and closes the edit modal. */
    method HandleSaveCategory(id: string, name: string, t: TxType) returns (request: UpdateRequest)
      modifies this`categoryToEdit
      ensures request == UpdateRequest(id, name, t)
      ensures categoryToEdit.None?
    {
      request := UpdateRequest(id, name, t);
      categoryToEdit := None;
    }

    /** The edit modal's close button. */
    method CancelEdit()
      modifies this`categoryToEdit
      ensures categoryToEdit.None?
    {
      categoryToEdit := None;
    }

    /** `handleCategoryClick`: opens the popup for the category. */
    method HandleCategoryClick(c: Category)
      modifies this`selectedCategory
      ensures selectedCategory == Some(c)
    {
      selectedCategory := Some(c);
    }

    /** The popup's Cancel button: closes the popup. */
    method ClosePopup()
      modifies this`selectedCategory
      ensures selectedCategory.None?
    {
      selectedCategory := None;
    }

    /** `handleEditCategory`: from the popup to the edit modal. */
    method HandleEditCategory(c: Category)
      modifies this`categoryToEdit, this`selectedCategory
      ensures categoryToEdit == Some(c) && selectedCategory.None?
    {
      categoryToEdit := Some(c);
      selectedCategory := None;
    }

    /** `handleDeleteCategory`: from the popup to the delete confirmation. */
    method HandleDeleteCategory(c: Category)
      modifies this`categoryToDelete, this`selectedCategory
      ensures categoryToDelete == Some(c) && selectedCategory.None?
    {
      categoryToDelete := Some(c);
      selectedCategory := None;
    }
  }

  /** Choosing Delete in the popup and confirming deletes exactly the chosen category and
      leaves nothing pending. */
  method DeleteFromPopup(screen: CategoriesScreen, c: Category) returns (deletedId: Option<string>)
    modifies screen
    ensures deletedId == Some(c.id)
    ensures screen.categoryToDelete.None? && screen.selectedCategory.None?
  {
    screen.HandleCategoryClick(c);
    screen.HandleDeleteCategory(c);
    deletedId := screen.HandleConfirmDelete();
  }
}
