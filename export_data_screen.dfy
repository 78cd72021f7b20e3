/** The CSV export screen: one row per transaction, with the category's name looked up. */
module ExportDataScreen {
  import opened Types

  /** `{ Date, Description, Category, Type, Amount, Notes }` */
  datatype ExportRow = ExportRow(date: string, description: string, category: string, txType: TxType, amount: real, notes: string)

  /** `categories.find(c => c.id === id)?.name || "N/A"`. */
  function CategoryName(categories: seq<Category>, id: string): (name: string)
    ensures name != ""
    ensures (forall i :: 0 <= i < |categories| ==> categories[i].id != id) ==> name == "N/A"
    ensures name == "N/A" || exists i :: 0 <= i < |categories| && FirstWithId(categories, id, i) && categories[i].name == name
    ensures forall i :: 0 <= i < |categories| && FirstWithId(categories, id, i) && categories[i].name != "" ==> name == categories[i].name
  {
    if categories == [] then "N/A"
    else if categories[0].id == id then
      assert FirstWithId(categories, id, 0);
      if categories[0].name != "" then categories[0].name else "N/A"
    else
      var name := CategoryName(categories[1..], id);
      assert forall i :: 0 <= i < |categories| - 1 ==> (FirstWithId(categories[1..], id, i) <==> FirstWithId(categories, id, i + 1));
      assert forall i :: 0 <= i < |categories| && FirstWithId(categories, id, i) ==> i > 0 && FirstWithId(categories[1..], id, i - 1);
      name
  }

  /** Position `i` holds the first category carrying `id`. */
  predicate FirstWithId(categories: seq<Category>, id: string, i: int)
    requires 0 <= i < |categories|
  {
    categories[i].id == id && forall j :: 0 <= j < i ==> categories[j].id != id
  }

  /** The `transactions.map(...)` that builds the CSV rows; `formatDate` stands for
      `new Date(d).toLocaleDateString()`. */
  function ExportRows(txs: seq<Transaction>, categories: seq<Category>, formatDate: string -> string): (rows: seq<ExportRow>)
    ensures |rows| == |txs|
    ensures forall i :: 0 <= i < |txs| ==>
      rows[i].description == txs[i].description && rows[i].txType == txs[i].txType && rows[i].amount == txs[i].amount
    ensures forall i :: 0 <= i < |txs| ==> rows[i].notes == (if txs[i].notes.Some? then txs[i].notes.value else "")
    ensures forall i :: 0 <= i < |txs| ==>
      rows[i].category == CategoryName(categories, txs[i].categoryId) && rows[i].date == formatDate(txs[i].transactionDate)
  {
    seq(|txs|, i requires 0 <= i < |txs| => RowOf(txs[i], categories, formatDate))
  }

  /** The CSV row of one transaction. */
  function RowOf(t: Transaction, categories: seq<Category>, formatDate: string -> string): ExportRow
  {
    var notes := if t.notes.Some? && t.notes.value != "" then t.notes.value else "";
    ExportRow(formatDate(t.transactionDate), t.description, CategoryName(categories, t.categoryId), t.txType, t.amount, notes)
  }

  class ExportScreen {
    var isExporting: bool

    constructor ()
      ensures !isExporting
    {
      isExporting := false;
    }

    /** `handleExport`: an empty list is refused; otherwise the rows are built and handed to
        the CSV writer. `isExporting` is false afterwards on every path. */
    method HandleExport(txs: seq<Transaction>, categories: seq<Category>, formatDate: string -> string)
      returns (exported: Option<seq<ExportRow>>, toast: Toast)
      modifies this
      ensures !isExporting
      ensures txs == [] ==> exported.None? && toast == ErrorToast("No transactions to export.")
      ensures txs != [] ==> exported == Some(ExportRows(txs, categories, formatDate))
      ensures txs != [] ==> toast == SuccessToast("Export successful!")
    {
      isExporting := true;
      if |txs| == 0 {
        toast := ErrorToast("No transactions to export.");
        isExporting := false;
        exported := None;
        return;
      }
      exported := Some(ExportRows(txs, categories, formatDate));
      toast := SuccessToast("Export successful!");
      isExporting := false;
    }
  }
}
