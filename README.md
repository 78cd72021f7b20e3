# Finance tracker core, modelled in Dafny

This project models the self-contained rules of the Cointrail personal finance tracker, a
React/TypeScript app on Supabase and Firebase. It covers:

- the CSV import pipeline: header auto-mapping, the "mapping complete" check, the reverse
  map, the multi-format date parser, the dedup of category names to create, the row
  accept/skip loop, and the sequence of backend calls with their error messages;
- the transaction list store of `useTransactions` and the Firestore `TransactionsProvider`,
  with the income / expense / balance summary;
- the password rules: the profile screen's validator and save handler, the registration
  strength classifier and submit handler, and the strength meter's bars;
- the modal state, the route guard, the category screen's form and popup state, the
  category edit modal, the add/edit transaction form;
- the search screen's filter, sort and local delete, and the CSV export rows;
- the outcome logic of the Firebase auth provider.

Every backend call (Supabase, Firebase, Firestore) is an input: the row or the error it
produced. The engine's own primitives (`parseFloat`, `new Date(...)` with its validity test,
`getTime`, `toISOString`, `toLocaleDateString`, `Number.toString`) are function-typed
parameters. Amounts are `real`. A JavaScript object whose key order matters is modelled as
a sequence of entries with unique keys: the column map is one. A `Map` is modelled the same
way: the new-category map is one.

Modules: `Types` (records, `Option`/`Result`, the id-based list operations), `Text`
(`length` in UTF-16 code units, `toLowerCase` on ASCII, `trim`, `includes`, the regex
character classes), then one module
per source file. The import screen is split three ways: `ImportMapping`, `ImportDates` and
`ImportTransactions`.

## Model

| member | source | states |
|---|---|---|
| Types.TypeName | src/types/database.ts:16 | the type column is "income" or "expense", and "income" exactly for `Income` |
| Types.OfType | src/screens/CategoriesScreen.tsx:63 | the result holds exactly the categories of the given type, no others |
| Types.ReplaceById | src/hooks/useTransactions.ts:126-128 | same length; every element with the id becomes the returned row, every other element is unchanged in place |
| Types.RemoveById | src/hooks/useTransactions.ts:150 | no element with the id survives; every other element keeps its multiplicity |
| Types.RemoveByIdAppend | src/hooks/useTransactions.ts:150 | the filter distributes over concatenation, so survivors keep their relative order |
| Types.RemoveByIdSingleton | src/hooks/useTransactions.ts:150 | one element is kept exactly when its id differs |
| Types.RemoveByIdAbsent | src/hooks/useTransactions.ts:150 | when no element has the id, the list is unchanged |
| Text.LowerChar | src/screens/SearchScreen.tsx:51 | upper-case ASCII letters move down by 32; every other character is unchanged |
| Text.ToLower | src/screens/SearchScreen.tsx:51 | same length, each character lowered |
| Text.TrimStart | src/screens/CategoriesScreen.tsx:23 | the result is a suffix, what was removed is all white space, and it does not start with white space |
| Text.TrimEnd | src/screens/CategoriesScreen.tsx:23 | the result is a prefix, what was removed is all white space, and it does not end with white space |
| Text.Trim | src/screens/CategoriesScreen.tsx:23 | a non-empty result neither starts nor ends with white space; it is empty exactly when the input is all white space |
| Text.Contains | src/screens/SearchScreen.tsx:51 | true exactly when the needle occurs at some position |
| Text.Utf16Length | src/screens/ProfileScreen.tsx:27 | `length` counts UTF-16 code units: at least the number of characters and at most twice it, zero exactly for the empty string, and equal to the number of characters when none is astral |
| TransactionSummary.ComputeSummary | src/hooks/useTransactions.ts:21-41 | income is the income-typed total, expenses the total of every other row, balance their difference, both change fields 0, all zero for an empty list |
| TransactionSummary.IncomeTotalAppend | src/hooks/useTransactions.ts:26-32 | both totals are additive over concatenation |
| TransactionSummary.SumAmountsAppend | src/hooks/useTransactions.ts:26-32 | the sum of all amounts is additive over concatenation |
| TransactionSummary.TotalsAreSumsByType | src/context/TransactionsContext.tsx:116-122 | income is the sum over income rows, expenses the sum over expense rows |
| TransactionSummary.TotalsPartitionAmounts | src/context/TransactionsContext.tsx:116-122 | every amount is counted exactly once: income plus expenses is the total |
| TransactionSummary.PrependEffect | src/hooks/useTransactions.ts:99 | prepending a row moves exactly the total of its type by its amount |
| TransactionsStore.TransactionStore.constructor | src/hooks/useTransactions.ts:11-19 | empty list, zero summary, loading |
| TransactionsStore.TransactionStore.RefreshSummary | src/hooks/useTransactions.ts:44-46 | the summary state becomes the summary of the current list |
| TransactionsStore.TransactionStore.Fetch | src/hooks/useTransactions.ts:48-72 | without a user nothing changes; an error keeps the list with a toast; success sets `data` or the empty list; loading ends false |
| TransactionsStore.TransactionStore.Add | src/hooks/useTransactions.ts:78-105 | success prepends the returned row; an error or no user keeps the list |
| TransactionsStore.TransactionStore.Update | src/hooks/useTransactions.ts:107-134 | success replaces the rows carrying the id; an error keeps the list |
| TransactionsStore.TransactionStore.Delete | src/hooks/useTransactions.ts:136-156 | success filters out the rows carrying the id; an error keeps the list |
| TransactionsStore.DeleteTwiceIsDeleteOnce | src/hooks/useTransactions.ts:150 | removing an id twice is the same as removing it once |
| TransactionsStore.UpdateAbsentIdKeepsList | src/hooks/useTransactions.ts:126-128 | updating an absent id leaves the list as it is |
| TransactionsContext.TransactionsProvider.constructor | src/context/TransactionsContext.tsx:67-68 | empty list, loading |
| TransactionsContext.TransactionsProvider.OnUserChanged | src/context/TransactionsContext.tsx:74-81 | with no user the list empties and loading stops; with a user loading starts |
| TransactionsContext.TransactionsProvider.OnSnapshot | src/context/TransactionsContext.tsx:89-101 | the list becomes the delivered documents and loading stops |
| TransactionsContext.TransactionsProvider.OnSnapshotError | src/context/TransactionsContext.tsx:102-106 | the list is kept, loading stops, the error toast is shown |
| TransactionsContext.TransactionsProvider.CurrentSummary | src/context/TransactionsContext.tsx:112-131 | the summary of the current list: totals by type, balance, zero change fields, zero for an empty list |
| TransactionsContext.SummaryAfterSignOut | src/context/TransactionsContext.tsx:75-78 | after a sign-out the summary is all zero and loading is over |
| ProfileScreen.ValidatePassword | src/screens/ProfileScreen.tsx:26-40 | accepts exactly a length of at least 8 UTF-16 code units with an upper-case letter, a lower-case letter and a digit; otherwise reports only the first failing rule, in order |
| ProfileScreen.AstralCharacterCountsTwice | src/screens/ProfileScreen.tsx:26-40 | "Abcde1😀" is seven characters but eight code units, and passes every rule |
| ProfileScreen.ProfileForm.UpdateProfile | src/screens/ProfileScreen.tsx:42-95 | a profile error stops everything; an empty new password skips the password branch; a mismatch and then a weak password are rejected before any update; the password fields are cleared only after a successful update |
| RegisterScreen.PasswordStrength | src/screens/RegisterScreen.tsx:36-45 | blank exactly for the empty password; weak below 6 UTF-16 code units; strong exactly for at least 8 code units with digit, upper and lower; medium otherwise |
| RegisterScreen.WeakIffShort | src/screens/RegisterScreen.tsx:38-44 | weak means exactly 1 to 5 code units, so the last `weak` return is unreachable |
| RegisterScreen.StrongIffProfileAccepts | src/screens/RegisterScreen.tsx:39-42 | the meter reads strong exactly for the passwords the profile validator accepts |
| RegisterScreen.HandleSubmit | src/screens/RegisterScreen.tsx:47-75 | `register` is called exactly when the passwords match; the navigation target follows `success` and `requiresConfirmation`; a failure shows the error or the default message |
| RegisterScreen.SuccessfulRegistrationGoesToConfirmation | src/screens/RegisterScreen.tsx:57-61 | with the Firebase provider a successful registration always goes to the confirmation page |
| PasswordStrengthMeter.FindIndex | src/components/ui/PasswordStrength.tsx:16 | the first index holding the level, or -1 exactly when it is absent |
| PasswordStrengthMeter.Render | src/components/ui/PasswordStrength.tsx:7-31 | nothing exactly for the blank strength; otherwise three bars, one per level, in order, bar i lit exactly when its level is at most the current one |
| PasswordStrengthMeter.LitBarsPerLevel | src/components/ui/PasswordStrength.tsx:10-24 | weak, medium and strong light 1, 2 and 3 bars |
| ModalContext.ModalState.constructor | src/context/ModalContext.tsx:16-17 | no modal and no transaction |
| ModalContext.ModalState.OpenModal | src/context/ModalContext.tsx:19-22 | the type and the (possibly absent) transaction are stored |
| ModalContext.ModalState.CloseModal | src/context/ModalContext.tsx:23-26 | both fields become empty |
| ModalContext.ModalState.TransactionFormShown | src/App.tsx:65 | the form is shown exactly when a modal type is set |
| ModalContext.CloseTwice | src/context/ModalContext.tsx:23-26 | closing twice gives the closed state and hides the form |
| ProtectedRoute.Decide | src/components/auth/ProtectedRoute.tsx:42-66 | children exactly with a user; spinner exactly without a user while loading; confirmation redirect exactly without a user, not loading, confirmation needed; login otherwise |
| ProtectedRoute.SignedOutGoesToLogin | src/components/auth/ProtectedRoute.tsx:60-65 | with the listener's flags, a signed-out visitor goes to the login page once loading ends |
| AuthContext.FlagsFor | src/context/AuthContext.tsx:66-73 | with a user the flags are `!emailVerified` and `emailVerified`; without a user both are false; never both true |
| AuthContext.AuthState.constructor | src/context/AuthContext.tsx:59-62 | no user, loading, both flags false |
| AuthContext.AuthState.OnAuthStateChanged | src/context/AuthContext.tsx:64-78 | the user is stored, the flags are derived from it and loading ends |
| AuthContext.AuthState.HandleEmailConfirmation | src/context/AuthContext.tsx:158-166 | with a signed-in user and a reload that resolves, both flags follow the current user's `emailVerified`, and both are false if no user is left; a rejected reload or no user changes nothing |
| AuthContext.LoginErrorMessage | src/context/AuthContext.tsx:86-95 | each of the four codes gives its own message; any other code gives "Login failed" |
| AuthContext.Login | src/context/AuthContext.tsx:80-98 | success exactly when sign-in did not fail; a failure carries the code's message |
| AuthContext.RegisterErrorMessage | src/context/AuthContext.tsx:123-130 | two codes have fixed messages; otherwise the error's message, or "Registration failed" when it is missing or empty |
| AuthContext.Register | src/context/AuthContext.tsx:100-133 | success exactly when no call failed, and then `requiresConfirmation` is true; a failure carries the mapped message |
| AuthContext.ResendConfirmation | src/context/AuthContext.tsx:143-156 | fails with "Must be logged in…" unless the current user's email is the one given; otherwise succeeds exactly when sending succeeds |
| SearchScreen.FilterByTerm | src/screens/SearchScreen.tsx:49-52 | exactly the transactions whose lowercased description contains the lowercased term, each with its multiplicity |
| SearchScreen.InsertNewestFirst | src/screens/SearchScreen.tsx:53-57 | inserting into a newest-first list keeps it newest first and adds exactly that element |
| SearchScreen.SortNewestFirst | src/screens/SearchScreen.tsx:53-57 | the result is newest first by transaction date and a permutation of the input |
| SearchScreen.SearchResultsAreTheMatches | src/screens/SearchScreen.tsx:49-59 | the results are newest first, hold exactly the matching transactions, and form a sub-multiset of the list |
| SearchScreen.SearchScreen.constructor | src/screens/SearchScreen.tsx:31-34 | no results, not searched, not loading |
| SearchScreen.SearchScreen.PerformSearch | src/screens/SearchScreen.tsx:38-63 | no user or a blank term clears the results and sets `hasSearched` to "the trimmed term is non-empty"; otherwise the results are the sorted matches |
| SearchScreen.SearchScreen.HandleDelete | src/screens/SearchScreen.tsx:73-76 | only entries with the id leave the results; the rest keep their order and multiplicity |
| AddTransactionScreen.CheckSubmission | src/screens/AddTransactionScreen.tsx:58-70 | accepted exactly for a positive number, a description and a category; otherwise the first failing check's message, in the order amount, description, category |
| AddTransactionScreen.TransactionForm.constructor | src/screens/AddTransactionScreen.tsx:21-27 | expense, empty fields, today's date, not submitting |
| AddTransactionScreen.TransactionForm.Prefill | src/screens/AddTransactionScreen.tsx:31-47 | an edited transaction is copied in; with none the form resets to expense with empty fields and today's date |
| AddTransactionScreen.TransactionForm.SetType | src/screens/AddTransactionScreen.tsx:113 | the toggle sets the type |
| AddTransactionScreen.TransactionForm.OnTypeChanged | src/screens/AddTransactionScreen.tsx:49-54 | the category is cleared only when not editing |
| AddTransactionScreen.TransactionForm.Submit | src/screens/AddTransactionScreen.tsx:56-87 | a failed check saves nothing and keeps the modal open; otherwise exactly one call, an update with the edited id or an add, and the modal closes |
| AddTransactionScreen.TransactionForm.FilteredCategories | src/screens/AddTransactionScreen.tsx:89 | exactly the categories of the selected type |
| CategoriesScreen.AddCategoryForm.constructor | src/screens/CategoriesScreen.tsx:18-19 | empty name, expense |
| CategoriesScreen.AddCategoryForm.Submit | src/screens/CategoriesScreen.tsx:21-28 | a blank name adds nothing and keeps the form; otherwise the trimmed name is added and the form resets to '' and expense |
| CategoriesScreen.CategoriesScreen.constructor | src/screens/CategoriesScreen.tsx:56-61 | expense tab, form hidden, nothing selected or pending |
| CategoriesScreen.CategoriesScreen.FilteredCategories | src/screens/CategoriesScreen.tsx:63 | exactly the categories of the active tab |
| CategoriesScreen.CategoriesScreen.SelectTab | src/screens/CategoriesScreen.tsx:113-120 | the tab becomes the chosen type |
| CategoriesScreen.CategoriesScreen.ToggleAddForm | src/screens/CategoriesScreen.tsx:103 | the add form's visibility flips |
| CategoriesScreen.CategoriesScreen.CancelAddForm | src/screens/CategoriesScreen.tsx:108 | the add form is hidden |
| CategoriesScreen.CategoriesScreen.HandleAddCategory | src/screens/CategoriesScreen.tsx:65-68 | the add request carries the name and type, and the form is hidden |
| CategoriesScreen.CategoriesScreen.HandleConfirmDelete | src/screens/CategoriesScreen.tsx:70-75 | deletes only the pending category's id and clears it; with nothing pending nothing is deleted |
| CategoriesScreen.CategoriesScreen.CancelDelete | src/screens/CategoriesScreen.tsx:184 | nothing is pending for deletion |
| CategoriesScreen.CategoriesScreen.HandleSaveCategory | src/screens/CategoriesScreen.tsx:77-80 | the update request carries id, name and type, and the edit modal closes |
| CategoriesScreen.CategoriesScreen.CancelEdit | src/screens/CategoriesScreen.tsx:193 | nothing is being edited |
| CategoriesScreen.CategoriesScreen.HandleCategoryClick | src/screens/CategoriesScreen.tsx:83-85 | the popup opens for the category |
| CategoriesScreen.CategoriesScreen.ClosePopup | src/screens/CategoriesScreen.tsx:173 | the popup closes |
| CategoriesScreen.CategoriesScreen.HandleEditCategory | src/screens/CategoriesScreen.tsx:88-91 | the category is to be edited and the popup closes |
| CategoriesScreen.CategoriesScreen.HandleDeleteCategory | src/screens/CategoriesScreen.tsx:94-97 | the category is pending deletion and the popup closes |
| CategoriesScreen.DeleteFromPopup | src/screens/CategoriesScreen.tsx:83-97 | choosing Delete in the popup and confirming deletes exactly that category and leaves nothing pending |
| EditCategoryModal.EditCategoryModal.constructor | src/components/categories/EditCategoryModal.tsx:15-17 | empty name, expense, not loading |
| EditCategoryModal.EditCategoryModal.OnCategoryChanged | src/components/categories/EditCategoryModal.tsx:19-24 | a category's name and type are copied in; without one the form is kept |
| EditCategoryModal.EditCategoryModal.Submit | src/components/categories/EditCategoryModal.tsx:26-33 | saves exactly with a category and a non-blank name, passing its id and the trimmed name; loading starts only then |
| ExportDataScreen.CategoryName | src/screens/ExportDataScreen.tsx:16-17 | the first category with the id gives its name; "N/A" when there is none or its name is empty |
| ExportDataScreen.ExportRows | src/screens/ExportDataScreen.tsx:30-37 | one row per transaction, in order; description, type and amount copied verbatim; notes "" when absent |
| ExportDataScreen.ExportScreen.constructor | src/screens/ExportDataScreen.tsx:14 | not exporting |
| ExportDataScreen.ExportScreen.HandleExport | src/screens/ExportDataScreen.tsx:19-61 | an empty list gives an error and no export; otherwise the rows are exported; `isExporting` is false on every path |
| ImportMapping.ClassifyHeader | src/screens/ImportTransactionsScreen.tsx:87-95 | the first keyword of date, desc, amount, type, cat that the lowercased header contains gives the field; ignore exactly when it contains none |
| ImportMapping.Lookup | src/screens/ImportTransactionsScreen.tsx:58-60 | a header is found exactly when some entry has it, and then with that entry's field |
| ImportMapping.Assign | src/screens/ImportTransactionsScreen.tsx:102-104 | an existing header keeps its position; a new one is appended; headers stay unique |
| ImportMapping.AssignLookup | src/screens/ImportTransactionsScreen.tsx:102-104 | the header maps to the new field and every other header keeps its entry |
| ImportMapping.InitialMap | src/screens/ImportTransactionsScreen.tsx:86-95 | unique headers; exactly the file's headers, each with its class |
| ImportMapping.InitialMapOfDistinctHeaders | src/screens/ImportTransactionsScreen.tsx:86-95 | with distinct headers, the map lists them in file order, each with its class |
| ImportMapping.AutoMap | src/screens/ImportTransactionsScreen.tsx:86-95 | the loop builds the initial map |
| ImportMapping.IsMappingValid | src/screens/ImportTransactionsScreen.tsx:106-109 | valid exactly when every field other than ignore is among the mapped values |
| ImportMapping.ReverseMap | src/screens/ImportTransactionsScreen.tsx:150-153 | never holds ignore; holds exactly the mapped fields |
| ImportMapping.ReverseMapLastWins | src/screens/ImportTransactionsScreen.tsx:150-153 | a field's header is that of the last column mapped to it |
| ImportMapping.ValidMappingCoversRequiredFields | src/screens/ImportTransactionsScreen.tsx:106-109 | a complete mapping gives each required field a column in the reverse map |
| ImportDates.SplitOn | src/screens/ImportTransactionsScreen.tsx:22 | at least one part, no part holds the separator, and joining the parts gives the input |
| ImportDates.SplitJoin | src/screens/ImportTransactionsScreen.tsx:22 | splitting a join of separator-free parts gives the parts back |
| ImportDates.MatchDateParts | src/screens/ImportTransactionsScreen.tsx:22 | a match captures two 1-2 digit numbers and a 4-digit year that make up the input |
| ImportDates.MatchDatePartsOf | src/screens/ImportTransactionsScreen.tsx:22 | every string of that shape matches, with its own numbers captured |
| ImportDates.PadStart2 | src/screens/ImportTransactionsScreen.tsx:25 | strings shorter than 2 are left-padded with '0' to length 2; longer ones are unchanged |
| ImportDates.ParseDate | src/screens/ImportTransactionsScreen.tsx:14-54 | a missing or empty cell gives null; a string the engine reads directly is taken as is; any result is the engine's reading of one of the candidates |
| ImportDates.SlashDateMonthFirst | src/screens/ImportTransactionsScreen.tsx:22-35 | `a/b/yyyy` is read month first, and day first only when month first is invalid |
| ImportDates.DashDateDayFirst | src/screens/ImportTransactionsScreen.tsx:38-51 | `a-b-yyyy` is read day first, and month first only when day first is invalid |
| ImportTransactions.IdsByKeyKeys | src/screens/ImportTransactionsScreen.tsx:141-142 | the category map's keys are exactly the existing-category set |
| ImportTransactions.IdsByKeyLaterWins | src/screens/ImportTransactionsScreen.tsx:142 | a key maps to the id of the last category carrying it |
| ImportTransactions.IdsByKeyAppend | src/screens/ImportTransactionsScreen.tsx:142-178 | setting created categories on the map equals building it from stored then created categories |
| ImportTransactions.AddCreated | src/screens/ImportTransactionsScreen.tsx:178 | the loop overlays the created categories' keys on the map |
| ImportTransactions.RowCategoryGuard | src/screens/ImportTransactionsScreen.tsx:158-162 | a row asks for a category exactly when its trimmed name is non-empty and its type reads income or expense; key is `lowercase(name)\|type` |
| ImportTransactions.Asks | src/screens/ImportTransactionsScreen.tsx:157-161 | one ask per row, in row order |
| ImportTransactions.PendingOf | src/screens/ImportTransactionsScreen.tsx:156-167 | the keys to create are unique and none is already stored |
| ImportTransactions.PendingFromFirstAsk | src/screens/ImportTransactionsScreen.tsx:163-164 | each category to create is the first row's ask for its key, with that row's name and type |
| ImportTransactions.PendingComplete | src/screens/ImportTransactionsScreen.tsx:161-165 | every key a row asks for that is not stored is among those to create |
| ImportTransactions.CategoriesToCreate | src/screens/ImportTransactionsScreen.tsx:156-167 | the loop with its `has` test computes the categories to create |
| ImportTransactions.RowInsert | src/screens/ImportTransactionsScreen.tsx:186-207 | accepted exactly with a non-empty trimmed description, a positive amount, a parsed date and a non-empty category id for the key; the insert carries the user id, that trimmed description, the parsed amount, the type text (`undefined` when absent), that category id, the ISO date and the notes cell |
| ImportTransactions.Accepted | src/screens/ImportTransactionsScreen.tsx:185-208 | no more inserts than rows, each the insert of some accepted row |
| ImportTransactions.AcceptedSnoc | src/screens/ImportTransactionsScreen.tsx:185-208 | one more row appends its insert exactly when it is accepted, so the inserts are the accepted rows' inserts, once per row, in row order |
| ImportTransactions.AcceptedPlusSkipped | src/screens/ImportTransactionsScreen.tsx:183-208 | inserted plus skipped equals the number of rows |
| ImportTransactions.PrepareTransactions | src/screens/ImportTransactionsScreen.tsx:183-208 | the loop builds the inserts and the skip count, and they add up to the number of rows |
| ImportTransactions.RunImport | src/screens/ImportTransactionsScreen.tsx:132-222 | a fetch error ends with its message; a failed category insert (when there are categories to create) ends with its message and no transaction insert; otherwise the run is the insert stage over the stored and created categories; success exactly when the dashboard is reached |
| ImportTransactions.InsertStage | src/screens/ImportTransactionsScreen.tsx:183-219 | a row without a category cell ends with the engine's error; otherwise the accepted rows are inserted, and the run reaches the dashboard with "Import complete! n transactions added, m skipped." exactly when there is nothing to insert or the insert succeeds, and ends with "Failed to insert transactions: …" otherwise |
| ImportTransactions.ImportSucceedsWhenBackendSucceeds | src/screens/ImportTransactionsScreen.tsx:132-219 | when every backend call succeeds and every row has a category cell, the import reaches the dashboard and inserts exactly the accepted rows |
| ImportTransactions.CompletedImportAccountsForEveryRow | src/screens/ImportTransactionsScreen.tsx:183-218 | a completed import inserts exactly the accepted rows, reports the rest as skipped, and each insert has a description, a positive amount and a resolved category id |
| ImportTransactions.ImportScreen.constructor | src/screens/ImportTransactionsScreen.tsx:68-72 | no file, no headers, empty map, not importing |
| ImportTransactions.ImportScreen.OnFileParsed | src/screens/ImportTransactionsScreen.tsx:82-97 | the preview rows and the headers are stored, and every header gets its class |
| ImportTransactions.ImportScreen.HandleMapChange | src/screens/ImportTransactionsScreen.tsx:102-104 | only that header's entry changes |
| ImportTransactions.ImportScreen.MappingValid | src/screens/ImportTransactionsScreen.tsx:106-109 | valid exactly when every required field is mapped |
| ImportTransactions.ImportScreen.HandleImport | src/screens/ImportTransactionsScreen.tsx:127-226 | no file or no user does nothing; otherwise the rows of the full re-parse are imported as `RunImport` says, never more inserts than those rows, and `isImporting` ends false |

## Left out

- Backend calls (Supabase, Firebase auth, Firestore, storage), Papaparse and the browser's
  download machinery. They are inputs, or left out. The refetches after an import are
  left out because they only reload state.
- Engine primitives are parameters, not definitions: `parseFloat` (`NaN` is `None`),
  `new Date(s)` with `isNaN(getTime())`, `getTime` in the search sort, `toISOString` and
  `toLocaleDateString`, `Number.toString`. `NaN` and `Infinity` amounts and JS
  floating-point rounding in the summary are not modelled; amounts are exact `real`s.
- Text.ToLower: lowercases ASCII letters only, not the full Unicode case mapping of
  `toLowerCase`.
- JavaScript objects list integer-like keys first, before insertion order. The column map
  model keeps plain insertion order.
- Papaparse is not modelled. The file is parsed twice. The first parse, with
  `preview: 5`, feeds the header mapping; its rows are stored but are not used by the
  import. The second parse, of the whole file, supplies the rows `handleImport` imports.
  Both parses' rows are inputs, and the five-row bound of the preview is not stated.
- ImportTransactions.RunImport: the key lookup on a row without a category cell throws a
  `TypeError`. The catch block turns it into an error toast. The model checks every row
  first and ends the run with that toast. The message text is engine-specific. The
  `Processing…`/`Creating…` progress toasts are not modelled.
- Thrown exceptions that the handlers catch are not modelled separately: the generic
  "An unexpected error occurred" of the profile screen, "Registration failed. Please try
  again." from a throwing `register`, "An error occurred during export.", and the hook
  catch blocks, which act like a returned error.
- ProfileScreen.ProfileForm.UpdateProfile: the full name is passed to the backend as is
  and is not modelled. Its prefill effect is left out.
- The register and profile screens' `isLoading` spinners, and the debounce of the search
  term, are not modelled (the hook that debounces is not part of this model).
- SearchScreen.SortNewestFirst: the sort is stable, but the model does not state that
  equal dates keep their relative order.
- Text.Trim: does not state that the result is the input with only leading and trailing
  white space removed (an infix of the input). It states the ends and the blank case.
- The search screen's `getCategoryName` ("Uncategorized" fallback) is display only and is
  left out. The export screen's lookup is modelled.
- The Firestore provider's add / update / delete write to Firestore and leave the local
  list to the snapshot listener. Only that listener is modelled.
- `useCategories` and the other thin screens are not part of this model (login, settings,
  password reset and update, email confirmation). Routing and pure rendering are left
  out too, except the modal visibility condition.
