/** The modal that renames a category. */
module EditCategoryModal {
  import opened Types
  import opened Text

  /** `onSave(id, name, type)` */
  datatype SaveRequest = SaveRequest(id: string, name: string, catType: TxType)

  class EditCategoryModal {
    var name: string
    var catType: TxType
    var isLoading: bool

    constructor ()
      ensures name == "" && catType == Expense && !isLoading
    {
      name := "";
      catType := Expense;
      isLoading := false;
    }

    /** The effect on `category`: a category is copied into the form; `None` keeps it. */
    method OnCategoryChanged(category: Option<Category>)
      modifies this`name, this`catType
      ensures category.Some? ==> name == category.value.name && catType == category.value.catType
      ensures category.None? ==> name == old(name) && catType == old(catType)
    {
      if category.Some? {
        name := category.value.name;
        catType := category.value.catType;
      }
    }

    /** `handleSubmit`: with a category and a name that is not blank, loading starts and
        `onSave` receives the category's id, the trimmed name and the selected type. */
    method Submit(category: Option<Category>) returns (save: Option<SaveRequest>)
      modifies this`isLoading
      ensures save.Some? <==> category.Some? && !AllWhitespace(name)
      ensures save.Some? ==> save.value == SaveRequest(category.value.id, Trim(name), catType) && isLoading
      ensures save.None? ==> isLoading == old(isLoading)
    {
      if category.Some? && Trim(name) != "" {
        isLoading := true;
        save := Some(SaveRequest(category.value.id, Trim(name), catType));
      } else {
        save := None;
      }
    }
  }
}
