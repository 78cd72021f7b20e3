/** `handleImport` of the CSV import: the category lookup keyed by `lowercase(name)|type`,
    the categories to create, the accept / skip loop over the rows, and the sequence of
    backend calls with their error messages. The backend results are inputs. */
module ImportTransactions {
  import opened Types
  import opened Text
  import opened ImportMapping
  import opened ImportDates

  /** A parsed CSV row: header to cell. */
  type Row = map<string, string>

  /** `row[reverseMap[f]]`, missing when the field has no column or the row no such cell. */
  function Cell(row: Row, rm: map<MappedField, string>, f: MappedField): Option<string>
  {
    if f in rm && rm[f] in row then Some(row[rm[f]]) else None
  }

  /** `row[reverseMap[f]]?.trim()` */
  function TrimmedCell(row: Row, rm: map<MappedField, string>, f: MappedField): Option<string>
  {
    match Cell(row, rm, f)
    case Some(s) => Some(Trim(s))
    case None => None
  }

  /** `row[reverseMap.type]?.toLowerCase().trim()` */
  function TypeCell(row: Row, rm: map<MappedField, string>): Option<string>
  {
    match Cell(row, rm, TypeField)
    case Some(s) => Some(Trim(ToLower(s)))
    case None => None
  }

  /** `${name.toLowerCase()}|${type}` */
  function CategoryKey(name: string, typeText: string): string
  {
    ToLower(name) + "|" + typeText
  }

  /** The key of a stored category. */
  function KeyOf(c: Category): string
  {
    CategoryKey(c.name, TypeName(c.catType))
  }

  /** `existingCategoriesSet` */
  function KeySet(cats: seq<Category>): set<string>
  {
    set c | c in cats :: KeyOf(c)
  }

  /** `new Map(cats.map(c => [key(c), c.id]))`: for a repeated key the later category wins. */
  function IdsByKey(cats: seq<Category>): map<string, string>
  {
    if cats == [] then map[]
    else IdsByKey(cats[..|cats| - 1])[KeyOf(cats[|cats| - 1]) := cats[|cats| - 1].id]
  }

  /** The map has exactly the keys of `existingCategoriesSet`. */
  lemma {:induction false} IdsByKeyKeys(cats: seq<Category>)
    ensures IdsByKey(cats).Keys == KeySet(cats)
  {
    if cats != [] {
      var prefix := cats[..|cats| - 1];
      IdsByKeyKeys(prefix);
      assert cats == prefix + [cats[|cats| - 1]];
      assert KeySet(cats) == KeySet(prefix) + {KeyOf(cats[|cats| - 1])};
    }
  }

  /** A key maps to the id of the last category carrying it. */
  lemma {:induction false} IdsByKeyLaterWins(cats: seq<Category>, i: int)
    requires 0 <= i < |cats|
    requires forall j :: i < j < |cats| ==> KeyOf(cats[j]) != KeyOf(cats[i])
    ensures KeyOf(cats[i]) in IdsByKey(cats) && IdsByKey(cats)[KeyOf(cats[i])] == cats[i].id
  {
    if i < |cats| - 1 {
      var prefix := cats[..|cats| - 1];
      assert prefix[i] == cats[i];
      assert forall j :: i < j < |prefix| ==> prefix[j] == cats[j];
      IdsByKeyLaterWins(prefix, i);
    }
  }

  /** Setting the keys of `b` one after another on the map of `a` gives the map of `a + b`. */
  lemma {:induction false} IdsByKeyAppend(a: seq<Category>, b: seq<Category>)
    ensures IdsByKey(a + b) == IdsByKey(a) + IdsByKey(b)
    decreases |b|
  {
    if b == [] {
      assert a + b == a;
    } else {
      var b' := b[..|b| - 1];
      var last := b[|b| - 1];
      assert (a + b)[..|a + b| - 1] == a + b';
      assert (a + b)[|a + b| - 1] == last;
      IdsByKeyAppend(a, b');
      SetAfterUnion(IdsByKey(a), IdsByKey(b'), KeyOf(last), last.id);
    }
  }

  lemma SetAfterUnion(m: map<string, string>, n: map<string, string>, k: string, v: string)
    ensures (m + n)[k := v] == m + n[k := v]
  {
  }

  /** The `createdCategories.forEach(c => categoryMap.set(key(c), c.id))` loop. */
  method AddCreated(m: map<string, string>, created: seq<Category>) returns (r: map<string, string>)
    ensures r == m + IdsByKey(created)
  {
    r := m;
    for i := 0 to |created|
      invariant r == m + IdsByKey(created[..i])
    {
      assert created[..i + 1][..i] == created[..i];
      SetAfterUnion(m, IdsByKey(created[..i]), KeyOf(created[i]), created[i].id);
      r := r[KeyOf(created[i]) := created[i].id];
    }
    assert created[..|created|] == created;
  }

  /** A category a row asks for: its key, its trimmed name and its type. */
  datatype NewCategory = NewCategory(key: string, name: string, catType: TxType)

  /** The guard of the first row loop: a non-empty trimmed name and a type cell reading
      `income` or `expense`. */
  function RowCategory(row: Row, rm: map<MappedField, string>): Option<NewCategory>
  {
    var name := TrimmedCell(row, rm, CategoryField);
    var t := TypeCell(row, rm);
    if name.Some? && name.value != "" && t.Some? && (t.value == "income" || t.value == "expense") then
      var ty := if t.value == "income" then Income else Expense;
      Some(NewCategory(CategoryKey(name.value, t.value), name.value, ty))
    else None
  }

  /** A row asks for a category exactly when its category cell is not blank and its type
      cell reads `income` or `expense` (after lowercasing and trimming); the category
      then has the trimmed name, that type, and the key `lowercase(name)|type`. */
  lemma RowCategoryGuard(row: Row, rm: map<MappedField, string>)
    ensures var c := RowCategory(row, rm);
      var name := Cell(row, rm, CategoryField);
      var t := Cell(row, rm, TypeField);
      && (c.Some? <==>
            name.Some? && !AllWhitespace(name.value) && t.Some? && Trim(ToLower(t.value)) in {"income", "expense"})
      && (c.Some? ==> c.value.name == Trim(name.value) && c.value.name != "")
      && (c.Some? ==> TypeName(c.value.catType) == Trim(ToLower(t.value)))
      && (c.Some? ==> c.value.key == ToLower(c.value.name) + "|" + TypeName(c.value.catType))
  {
  }

  function Keys(pending: seq<NewCategory>): set<string>
  {
    set c | c in pending :: c.key
  }

  /** What each row asks for, in row order. */
  function Asks(rows: seq<Row>, rm: map<MappedField, string>): (asks: seq<Option<NewCategory>>)
    ensures |asks| == |rows|
    ensures forall i :: 0 <= i < |rows| ==> asks[i] == RowCategory(rows[i], rm)
  {
    seq(|rows|, i requires 0 <= i < |rows| => RowCategory(rows[i], rm))
  }

  /** Position `i` is the first ask for `key`. */
  predicate FirstAsk(asks: seq<Option<NewCategory>>, key: string, i: int)
  {
    0 <= i < |asks| && asks[i].Some? && asks[i].value.key == key
    && forall j :: 0 <= j < i ==> asks[j].None? || asks[j].value.key != key
  }

  /** `newCategoriesToCreate` after the loop, in insertion order: an ask is kept when its key
      is neither stored nor already kept. Keys are unique and none is already stored. */
  function PendingOf(asks: seq<Option<NewCategory>>, existing: set<string>): (p: seq<NewCategory>)
    ensures forall i, j :: 0 <= i < j < |p| ==> p[i].key != p[j].key
    ensures forall i :: 0 <= i < |p| ==> p[i].key !in existing
  {
    if asks == [] then []
    else
      var p := PendingOf(asks[..|asks| - 1], existing);
      var c := asks[|asks| - 1];
      if c.Some? && c.value.key !in existing && c.value.key !in Keys(p) then
        assert forall i :: 0 <= i < |p| ==> p[i] in p;
        p + [c.value]
      else p
  }

  /** The categories the rows of the file ask to create. */
  function Pending(rows: seq<Row>, rm: map<MappedField, string>, existing: set<string>): seq<NewCategory>
  {
    PendingOf(Asks(rows, rm), existing)
  }

  lemma KeysAppend(p: seq<NewCategory>, c: NewCategory)
    ensures Keys(p + [c]) == Keys(p) + {c.key}
  {
    assert forall x :: x in p + [c] <==> x in p || x == c;
  }

  /** Each category to create is the first ask for its key (so it has that row's name and type). */
  lemma {:induction false} PendingFromFirstAsk(asks: seq<Option<NewCategory>>, existing: set<string>, c: NewCategory)
    requires c in PendingOf(asks, existing)
    ensures exists i :: FirstAsk(asks, c.key, i) && asks[i] == Some(c)
  {
    var prefix := asks[..|asks| - 1];
    var p := PendingOf(prefix, existing);
    if c in p {
      PendingFromFirstAsk(prefix, existing, c);
      var i :| FirstAsk(prefix, c.key, i) && prefix[i] == Some(c);
      assert forall j :: 0 <= j <= i ==> prefix[j] == asks[j];
      assert FirstAsk(asks, c.key, i);
    } else {
      var n := |asks| - 1;
      assert asks[n] == Some(c) && c.key !in Keys(p) && c.key !in existing;
      forall j | 0 <= j < n && asks[j].Some? ensures asks[j].value.key != c.key {
        assert prefix[j] == asks[j];
        if asks[j].value.key !in existing {
          PendingComplete(prefix, existing, j);
        }
      }
      assert FirstAsk(asks, c.key, n);
    }
  }

  /** Every key some row asks for that is not already stored is among the categories to create. */
  lemma {:induction false} PendingComplete(asks: seq<Option<NewCategory>>, existing: set<string>, i: int)
    requires 0 <= i < |asks| && asks[i].Some? && asks[i].value.key !in existing
    ensures asks[i].value.key in Keys(PendingOf(asks, existing))
  {
    var prefix := asks[..|asks| - 1];
    var p := PendingOf(prefix, existing);
    var c := asks[|asks| - 1];
    if c.Some? && c.value.key !in existing && c.value.key !in Keys(p) {
      KeysAppend(p, c.value);
    }
    if i < |prefix| {
      assert prefix[i] == asks[i];
      PendingComplete(prefix, existing, i);
    }
  }

  /** The first row loop, with `newCategoriesToCreate.has` as a set of the keys so far. */
  method CategoriesToCreate(rows: seq<Row>, rm: map<MappedField, string>, existing: set<string>)
    returns (pending: seq<NewCategory>)
    ensures pending == Pending(rows, rm, existing)
  {
    pending := [];
    var seen: set<string> := {};
    var asks := Asks(rows, rm);
    for i := 0 to |rows|
      invariant pending == PendingOf(asks[..i], existing)
      invariant seen == Keys(pending)
    {
      PendingStep(asks, existing, i);
      var c := asks[i];
      if c.Some? && c.value.key !in existing && c.value.key !in seen {
        KeysAppend(pending, c.value);
        pending := pending + [c.value];
        seen := seen + {c.value.key};
      }
    }
    assert asks[..|rows|] == asks;
  }

  /** One more ask is kept exactly when its key is neither stored nor already kept. */
  lemma PendingStep(asks: seq<Option<NewCategory>>, existing: set<string>, i: int)
    requires 0 <= i < |asks|
    ensures var p := PendingOf(asks[..i], existing);
      var c := asks[i];
      PendingOf(asks[..i + 1], existing) ==
        if c.Some? && c.value.key !in existing && c.value.key !in Keys(p) then p + [c.value] else p
  {
    assert asks[..i + 1][..i] == asks[..i];
  }

  /** One element of `transactionsToInsert`. */
  datatype TxInsert = TxInsert(userId: string, description: string, amount: real, typeText: string,
                               categoryId: string, transactionDate: string, notes: Option<string>)

  /** The engine's primitives the row loop relies on: `parseFloat` (`None` for `NaN`), the
      date parser and `toISOString`. */
  datatype Engine = Engine(parseAmount: string -> Option<real>, jsDate: string -> Option<int>, toIso: int -> string)

  /** The row's type text as the template and the insert carry it: an absent type cell is
      `undefined`. */
  function TypeText(row: Row, rm: map<MappedField, string>): string
  {
    var t := TypeCell(row, rm);
    if t.Some? then t.value else "undefined"
  }

  /** The key a row looks up. */
  function RowKey(row: Row, rm: map<MappedField, string>): string
    requires Cell(row, rm, CategoryField).Some?
  {
    CategoryKey(TrimmedCell(row, rm, CategoryField).value, TypeText(row, rm))
  }

  /** `parseFloat(row[reverseMap.amount])`: an absent cell parses to `NaN`. */
  function RowAmount(row: Row, rm: map<MappedField, string>, e: Engine): Option<real>
  {
    match Cell(row, rm, AmountField)
    case Some(s) => e.parseAmount(s)
    case None => None
  }

  /** The body of the second row loop: a row is accepted when its trimmed description is
      non-empty, its amount a positive number, its date parses and its key has a
      non-empty category id; otherwise it is skipped. */
  function RowInsert(row: Row, rm: map<MappedField, string>, categoryMap: map<string, string>, userId: string, e: Engine)
    : (r: Option<TxInsert>)
    requires Cell(row, rm, CategoryField).Some?
    ensures r.Some? <==>
      && TrimmedCell(row, rm, DescriptionField) !in {None, Some("")}
      && RowAmount(row, rm, e).Some? && RowAmount(row, rm, e).value > 0.0
      && ParseDate(TrimmedCell(row, rm, DateField), e.jsDate).Some?
      && RowKey(row, rm) in categoryMap && categoryMap[RowKey(row, rm)] != ""
    ensures r.Some? ==> r.value.description != "" && r.value.amount > 0.0 && r.value.userId == userId
    ensures r.Some? ==> r.value.description == TrimmedCell(row, rm, DescriptionField).value
    ensures r.Some? ==> r.value.amount == RowAmount(row, rm, e).value
    ensures r.Some? ==> r.value.typeText == TypeText(row, rm)
    ensures r.Some? ==> r.value.categoryId == categoryMap[RowKey(row, rm)]
    ensures r.Some? ==> r.value.transactionDate == e.toIso(ParseDate(TrimmedCell(row, rm, DateField), e.jsDate).value)
    ensures r.Some? ==> r.value.notes == if "notes" in row && row["notes"] != "" then Some(row["notes"]) else None
  {
    var description := TrimmedCell(row, rm, DescriptionField);
    var amount := RowAmount(row, rm, e);
    var parsedDate := ParseDate(TrimmedCell(row, rm, DateField), e.jsDate);
    var key := RowKey(row, rm);
    if description.Some? && description.value != "" && amount.Some? && amount.value > 0.0
       && parsedDate.Some? && key in categoryMap && categoryMap[key] != "" then
      Some(TxInsert(userId, description.value, amount.value, TypeText(row, rm),
                    categoryMap[key], e.toIso(parsedDate.value),
                    if "notes" in row && row["notes"] != "" then Some(row["notes"]) else None))
    else None
  }

  /** Every row has a category cell (the loop reads it unguarded). */
  predicate AllHaveCategory(rows: seq<Row>, rm: map<MappedField, string>)
  {
    forall i :: 0 <= i < |rows| ==> Cell(rows[i], rm, CategoryField).Some?
  }

  /** The accepted rows' inserts, in row order. */
  function Accepted(rows: seq<Row>, rm: map<MappedField, string>, categoryMap: map<string, string>, userId: string, e: Engine)
    : (r: seq<TxInsert>)
    requires AllHaveCategory(rows, rm)
    ensures |r| <= |rows|
    ensures forall x :: x in r ==> exists i :: 0 <= i < |rows| && RowInsert(rows[i], rm, categoryMap, userId, e) == Some(x)
  {
    if rows == [] then []
    else
      var n := |rows| - 1;
      var prefix := rows[..n];
      assert forall i :: 0 <= i < |prefix| ==> prefix[i] == rows[i];
      var r := Accepted(prefix, rm, categoryMap, userId, e);
      var last := RowInsert(rows[n], rm, categoryMap, userId, e);
      var res := if last.Some? then r + [last.value] else r;
      assert forall x :: x in res ==> exists i :: 0 <= i < |rows| && RowInsert(rows[i], rm, categoryMap, userId, e) == Some(x) by {
        forall x | x in res ensures exists i :: 0 <= i < |rows| && RowInsert(rows[i], rm, categoryMap, userId, e) == Some(x) {
          if x in r {
            var i :| 0 <= i < |prefix| && RowInsert(prefix[i], rm, categoryMap, userId, e) == Some(x);
            assert rows[i] == prefix[i];
          } else {
            assert RowInsert(rows[n], rm, categoryMap, userId, e) == Some(x);
          }
        }
      }
      res
  }

  /** One more row appends its insert when it is accepted, and nothing otherwise: the
      inserts are the accepted rows' inserts, once per row, in row order. */
  lemma {:induction false} AcceptedSnoc(rows: seq<Row>, x: Row, rm: map<MappedField, string>, categoryMap: map<string, string>,
                                        userId: string, e: Engine)
    requires AllHaveCategory(rows, rm) && Cell(x, rm, CategoryField).Some?
    ensures AllHaveCategory(rows + [x], rm)
    ensures var last := RowInsert(x, rm, categoryMap, userId, e);
      Accepted(rows + [x], rm, categoryMap, userId, e) ==
        Accepted(rows, rm, categoryMap, userId, e) + (if last.Some? then [last.value] else [])
  {
    var all := rows + [x];
    assert forall i :: 0 <= i < |rows| ==> rows[i] == all[i];
    assert all[..|all| - 1] == rows;
    assert all[|all| - 1] == x;
  }

  /** The number of skipped rows. */
  function Skipped(rows: seq<Row>, rm: map<MappedField, string>, categoryMap: map<string, string>, userId: string, e: Engine): nat
    requires AllHaveCategory(rows, rm)
  {
    if rows == [] then 0
    else
      var prefix := rows[..|rows| - 1];
      assert forall i :: 0 <= i < |prefix| ==> prefix[i] == rows[i];
      Skipped(prefix, rm, categoryMap, userId, e) + (if RowInsert(rows[|rows| - 1], rm, categoryMap, userId, e).None? then 1 else 0)
  }

  /** Every row is either inserted or counted as skipped. */
  lemma {:induction false} AcceptedPlusSkipped(rows: seq<Row>, rm: map<MappedField, string>, categoryMap: map<string, string>, userId: string, e: Engine)
    requires AllHaveCategory(rows, rm)
    ensures |Accepted(rows, rm, categoryMap, userId, e)| + Skipped(rows, rm, categoryMap, userId, e) == |rows|
  {
    if rows != [] {
      var prefix := rows[..|rows| - 1];
      assert forall i :: 0 <= i < |prefix| ==> prefix[i] == rows[i];
      AcceptedPlusSkipped(prefix, rm, categoryMap, userId, e);
    }
  }

  /** The second row loop: `transactionsToInsert` and `skippedCount`. */
  method PrepareTransactions(rows: seq<Row>, rm: map<MappedField, string>, categoryMap: map<string, string>, userId: string, e: Engine)
    returns (inserts: seq<TxInsert>, skipped: nat)
    requires AllHaveCategory(rows, rm)
    ensures inserts == Accepted(rows, rm, categoryMap, userId, e)
    ensures skipped == Skipped(rows, rm, categoryMap, userId, e)
    ensures |inserts| + skipped == |rows|
  {
    inserts := [];
    skipped := 0;
    for i := 0 to |rows|
      invariant AllHaveCategory(rows[..i], rm)
      invariant inserts == Accepted(rows[..i], rm, categoryMap, userId, e)
      invariant skipped == Skipped(rows[..i], rm, categoryMap, userId, e)
    {
      assert rows[..i + 1][..i] == rows[..i];
      assert AllHaveCategory(rows[..i + 1], rm);
      match RowInsert(rows[i], rm, categoryMap, userId, e) {
        case Some(x) => inserts := inserts + [x];
        case None => skipped := skipped + 1;
      }
    }
    assert rows[..|rows|] == rows;
    AcceptedPlusSkipped(rows, rm, categoryMap, userId, e);
  }

  /** Decimal digits of a count, as a template literal prints it. */
  function NatToString(n: nat): (s: string)
    ensures s != [] && AllDigits(s)
  {
    if n < 10 then [('0' as int + n) as char]
    else NatToString(n / 10) + [('0' as int + n % 10) as char]
  }

  /** The message of the `TypeError` the key lookup raises on a row without a category
      cell; its text is the engine's. */
  const MissingCategoryCellError := "Cannot read properties of undefined (reading 'toLowerCase')"

  function SuccessMessage(added: nat, skipped: nat): string
  {
    "Import complete! " + NatToString(added) + " transactions added, " + NatToString(skipped) + " skipped."
  }

  /** What `handleImport` asked the backend for, and how it ended. */
  datatype ImportRun = ImportRun(toast: Toast, categoriesCreated: seq<NewCategory>, inserted: seq<TxInsert>, toDashboard: bool)

  /** The pure part of `handleImport` once the file and the user are there: the calls made
      in order, each failure ending the run with its message. `fetched` is the stored
      categories (or the fetch error), `created` the result of the category insert,
      `insertError` that of the transaction insert. */
  function RunImport(cm: seq<Column>, userId: string, fetched: Result<seq<Category>, string>, rows: seq<Row>,
                     created: Result<seq<Category>, string>, insertError: Option<string>, e: Engine): (run: ImportRun)
    ensures fetched.Err? ==> run == ImportRun(ErrorToast("Failed to fetch categories: " + fetched.error), [], [], false)
    ensures run.toDashboard <==> run.toast.SuccessToast?
    ensures run.toDashboard ==> fetched.Ok? && AllHaveCategory(rows, ReverseMap(cm))
    ensures |run.inserted| <= |rows|
    ensures fetched.Ok? ==> run.categoriesCreated == Pending(rows, ReverseMap(cm), KeySet(fetched.value))
    ensures fetched.Ok? && run.categoriesCreated != [] && created.Err? ==>
      run.toast == ErrorToast("Failed to create categories: " + created.error) && run.inserted == []
    ensures fetched.Ok? && (run.categoriesCreated == [] || created.Ok?) ==>
      var rm := ReverseMap(cm);
      run == InsertStage(rows, rm, run.categoriesCreated, CategoryMapOf(fetched.value, run.categoriesCreated, created),
                         userId, insertError, e)
  {
    match fetched
    case Err(msg) => ImportRun(ErrorToast("Failed to fetch categories: " + msg), [], [], false)
    case Ok(existing) =>
      var rm := ReverseMap(cm);
      var pending := Pending(rows, rm, KeySet(existing));
      if pending != [] && created.Err? then
        ImportRun(ErrorToast("Failed to create categories: " + created.error), pending, [], false)
      else
        InsertStage(rows, rm, pending, CategoryMapOf(existing, pending, created), userId, insertError, e)
  }

  /** The category map after the new categories are inserted: stored categories, then the
      created ones (only when there were any to create). */
  function CategoryMapOf(existing: seq<Category>, pending: seq<NewCategory>, created: Result<seq<Category>, string>)
    : map<string, string>
  {
    IdsByKey(existing) + (if pending != [] && created.Ok? then IdsByKey(created.value) else map[])
  }

  /** The row loop and the transaction insert, with the category map complete. */
  function InsertStage(rows: seq<Row>, rm: map<MappedField, string>, pending: seq<NewCategory>,
                       categoryMap: map<string, string>, userId: string, insertError: Option<string>, e: Engine)
    : (run: ImportRun)
    ensures run.categoriesCreated == pending
    ensures run.toDashboard <==> run.toast.SuccessToast?
    ensures run.toDashboard ==> AllHaveCategory(rows, rm)
    ensures |run.inserted| <= |rows|
    ensures !AllHaveCategory(rows, rm) ==> run == ImportRun(ErrorToast(MissingCategoryCellError), pending, [], false)
    ensures AllHaveCategory(rows, rm) ==> run.inserted == Accepted(rows, rm, categoryMap, userId, e)
    ensures AllHaveCategory(rows, rm) && (Accepted(rows, rm, categoryMap, userId, e) == [] || insertError.None?) ==>
      run.toDashboard &&
      run.toast == SuccessToast(SuccessMessage(|run.inserted|, Skipped(rows, rm, categoryMap, userId, e)))
    ensures AllHaveCategory(rows, rm) && Accepted(rows, rm, categoryMap, userId, e) != [] && insertError.Some? ==>
      !run.toDashboard && run.toast == ErrorToast("Failed to insert transactions: " + insertError.value)
  {
    if !AllHaveCategory(rows, rm) then
      ImportRun(ErrorToast(MissingCategoryCellError), pending, [], false)
    else
      var inserts := Accepted(rows, rm, categoryMap, userId, e);
      var skipped := Skipped(rows, rm, categoryMap, userId, e);
      if inserts != [] && insertError.Some? then
        ImportRun(ErrorToast("Failed to insert transactions: " + insertError.value), pending, inserts, false)
      else
        ImportRun(SuccessToast(SuccessMessage(|inserts|, skipped)), pending, inserts, true)
  }

  /** Every insert of the row loop has a description, a positive amount and a category id
      taken from the category map. */
  lemma {:induction false} AcceptedInsertsAreComplete(rows: seq<Row>, rm: map<MappedField, string>, categoryMap: map<string, string>,
                                   userId: string, e: Engine)
    requires AllHaveCategory(rows, rm)
    ensures forall x :: x in Accepted(rows, rm, categoryMap, userId, e) ==>
      x.description != "" && x.amount > 0.0 && x.categoryId in categoryMap.Values
  {
    forall x | x in Accepted(rows, rm, categoryMap, userId, e)
      ensures x.description != "" && x.amount > 0.0 && x.categoryId in categoryMap.Values
    {
      var i :| 0 <= i < |rows| && RowInsert(rows[i], rm, categoryMap, userId, e) == Some(x);
      assert categoryMap[RowKey(rows[i], rm)] == x.categoryId;
    }
  }

  /** A completed insert stage reports every row, inserted or skipped. */
  lemma {:induction false} CompletedStageAccountsForEveryRow(rows: seq<Row>, rm: map<MappedField, string>, pending: seq<NewCategory>,
                                          categoryMap: map<string, string>, userId: string, insertError: Option<string>, e: Engine)
    requires InsertStage(rows, rm, pending, categoryMap, userId, insertError, e).toDashboard
    ensures AllHaveCategory(rows, rm)
    ensures var run := InsertStage(rows, rm, pending, categoryMap, userId, insertError, e);
      && run.inserted == Accepted(rows, rm, categoryMap, userId, e)
      && run.toast == SuccessToast(SuccessMessage(|run.inserted|, |rows| - |run.inserted|))
  {
    var inserts := Accepted(rows, rm, categoryMap, userId, e);
    var skipped := Skipped(rows, rm, categoryMap, userId, e);
    AcceptedPlusSkipped(rows, rm, categoryMap, userId, e);
    assert skipped == |rows| - |inserts|;
    assert InsertStage(rows, rm, pending, categoryMap, userId, insertError, e)
      == ImportRun(SuccessToast(SuccessMessage(|inserts|, skipped)), pending, inserts, true);
  }

  /** Once the categories are fetched and any needed ones created, the run is the insert stage. */
  lemma {:induction false} RunImportReachesInsertStage(cm: seq<Column>, userId: string, existing: seq<Category>, rows: seq<Row>,
                                                      created: Result<seq<Category>, string>, insertError: Option<string>, e: Engine)
    requires RunImport(cm, userId, Ok(existing), rows, created, insertError, e).toDashboard
    ensures var rm := ReverseMap(cm);
      var pending := Pending(rows, rm, KeySet(existing));
      RunImport(cm, userId, Ok(existing), rows, created, insertError, e)
        == InsertStage(rows, rm, pending, CategoryMapOf(existing, pending, created), userId, insertError, e)
  {
  }

  /** When every backend call succeeds and every row has a category cell, the import
      completes and reaches the dashboard, inserting exactly the accepted rows. */
  lemma ImportSucceedsWhenBackendSucceeds(cm: seq<Column>, userId: string, existing: seq<Category>, rows: seq<Row>,
                                          created: seq<Category>, e: Engine)
    requires AllHaveCategory(rows, ReverseMap(cm))
    ensures var rm := ReverseMap(cm);
      var categoryMap := CategoryMapOf(existing, Pending(rows, rm, KeySet(existing)), Ok(created));
      var run := RunImport(cm, userId, Ok(existing), rows, Ok(created), None, e);
      && run.toDashboard
      && run.inserted == Accepted(rows, rm, categoryMap, userId, e)
  {
  }

  /** A completed import reports every row, inserted or skipped, and inserts only rows that
      passed every check, with their category resolved from stored and created categories. */
  lemma {:induction false} CompletedImportAccountsForEveryRow(cm: seq<Column>, userId: string, existing: seq<Category>, rows: seq<Row>,
                                           created: Result<seq<Category>, string>, insertError: Option<string>, e: Engine)
    requires RunImport(cm, userId, Ok(existing), rows, created, insertError, e).toDashboard
    ensures var rm := ReverseMap(cm);
      var categoryMap := CategoryMapOf(existing, Pending(rows, rm, KeySet(existing)), created);
      var run := RunImport(cm, userId, Ok(existing), rows, created, insertError, e);
      && AllHaveCategory(rows, rm)
      && run.inserted == Accepted(rows, rm, categoryMap, userId, e)
      && run.toast == SuccessToast(SuccessMessage(|run.inserted|, |rows| - |run.inserted|))
      && forall x :: x in run.inserted ==> x.description != "" && x.amount > 0.0 && x.categoryId in categoryMap.Values
  {
    var rm := ReverseMap(cm);
    var pending := Pending(rows, rm, KeySet(existing));
    var categoryMap := CategoryMapOf(existing, pending, created);
    RunImportReachesInsertStage(cm, userId, existing, rows, created, insertError, e);
    CompletedStageAccountsForEveryRow(rows, rm, pending, categoryMap, userId, insertError, e);
    AcceptedInsertsAreComplete(rows, rm, categoryMap, userId, e);
  }

  class ImportScreen {
    var hasFile: bool
    var parsedData: seq<Row>
    var headers: seq<string>
    var columnMap: seq<Column>
    var isImporting: bool

    constructor ()
      ensures !hasFile && parsedData == [] && headers == [] && columnMap == [] && !isImporting
    {
      hasFile := false;
      parsedData := [];
      headers := [];
      columnMap := [];
      isImporting := false;
    }

    /** The preview parse's `complete` callback: the parsed rows (the parser's preview, at
        most its first five data rows), the headers and their initial mapping. */
    method OnFileParsed(fields: seq<string>, data: seq<Row>)
      modifies this`hasFile, this`parsedData, this`headers, this`columnMap
      ensures hasFile && parsedData == data && headers == fields && columnMap == InitialMap(fields)
      ensures forall h :: h in fields ==> Lookup(columnMap, h) == Some(ClassifyHeader(h))
    {
      hasFile := true;
      parsedData := data;
      headers := fields;
      columnMap := AutoMap(fields);
    }

    /** `handleMapChange(header, field)`: only that header's entry changes. */
    method HandleMapChange(header: string, f: MappedField)
      modifies this`columnMap
      ensures columnMap == Assign(old(columnMap), header, f)
      ensures Lookup(columnMap, header) == Some(f)
      ensures forall g :: g != header ==> Lookup(columnMap, g) == Lookup(old(columnMap), g)
    {
      forall g ensures Lookup(Assign(columnMap, header, f), g) == if g == header then Some(f) else Lookup(columnMap, g) {
        AssignLookup(columnMap, header, f, g);
      }
      columnMap := Assign(columnMap, header, f);
    }

    /** `isMappingValid` of the current mapping. */
    function MappingValid(): (valid: bool)
      reads this
      ensures valid <==> forall f :: f != Ignore ==> HasField(columnMap, f)
    {
      IsMappingValid(columnMap)
    }

    /** `handleImport`, enabled only for a complete mapping: nothing happens without a file
        or a user; otherwise the whole file is parsed again (`fullData`, the rows of that
        second parse, without the preview bound), the run goes as `RunImport` says and
        `isImporting` ends false. */
    method HandleImport(hasUser: bool, userId: string, fetched: Result<seq<Category>, string>,
                        fullData: seq<Row>, created: Result<seq<Category>, string>,
                        insertError: Option<string>, e: Engine)
      returns (run: ImportRun)
      requires IsMappingValid(columnMap)
      modifies this`isImporting
      ensures !hasFile || !hasUser ==> run == ImportRun(NoToast, [], [], false) && isImporting == old(isImporting)
      ensures hasFile && hasUser ==> run == RunImport(columnMap, userId, fetched, fullData, created, insertError, e) && !isImporting
      ensures |run.inserted| <= |fullData|
    {
      if !hasFile || !hasUser {
        return ImportRun(NoToast, [], [], false);
      }
      isImporting := true;
      run := RunImport(columnMap, userId, fetched, fullData, created, insertError, e);
      isImporting := false;
    }
  }
}
