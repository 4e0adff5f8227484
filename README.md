# Inventory ledger of a stores office, in Dafny

This project models the core of a small Django stock-control application. The application
keeps three stores: SF STORE, COMPUTER STORE and MAINTENANCE STORE. Items are keyed by
their material number and carry opening balances and a reorder level. There is an
append-only ledger of signed transactions, with receipts positive and issues negative.
Every balance is derived from the ledger afresh: the opening bin balance (or the opening
physical count) plus the sum of the item's quantities. No balance is ever stored.

These parts are modelled:

- **`Models`** (`models.dfy`): the tables, as the value `Db(stores, items, log)`. It
  also holds the derived quantities `current_balance`, `physical_balance`, `deficit`,
  `surplus` and `needs_reorder`, and the `Store.objects.get(name=…)` lookup with its two
  exceptions.
- **`Admin`** (`admin.dfy`): the admin list's "Current Balance" and "Status" columns, and
  the three bulk actions that move the selected items to a named store.
- **`Views`** (`views.dfy`): the parts of the views other than rendering:
  - the home page summary, with the 20 most urgent reorder items;
  - the stock list with its `store` filter;
  - the transaction form, and the POST handler that parses, signs and records an entry;
  - the item selection and status rule of the spreadsheet export.
- **`ImportData`** (`import_data.dfy`): the one-off spreadsheet import script. It creates
  the three stores and looks for the header row among the first ten rows. It maps the
  seven required columns, upserts one item per data row and counts the new ones. Finally
  it replays the transaction sheet with its own sign rule and counts the entries made.
  Cells are `Empty | Text | Number | DateTime`. Each database write is committed on its
  own, so an exception part-way through keeps what was written before it. Each pass
  therefore returns its state, its counter and the exception that ended it, if any.
- **`Properties`** (`properties.dfy`): facts that span modules. The export status equals
  the admin status. The form's sign rule and the import's sign rule agree on receipts and
  issues of non-negative quantities, and disagree otherwise. A worked ledger example
  goes through the three statuses.
- `Strings`, `Seqs` and `Wrappers` are small supporting modules:
  - `Strings`: Python's `strip`, `lower`, `capitalize`, `str(int)` and `int(str)` on
    ASCII, plus code-point string order.
  - `Seqs`: list comprehensions, and a stable `sorted(…, key=…)`.
  - `Wrappers`: `Option` and `Result`.

Each loop of the import script is a `method` with a `while` loop. Each is proved equal to
a fold function over the rows, and the properties of the script are lemmas about those
folds. For example, `items_created` is the number of new material numbers, and
re-importing duplicates the ledger.

The code has these behaviours, and the model keeps them:
- `import_data.py` prints "new items created/updated", but its counter counts only created items.
- `add_transaction` does not check the sign of the entered quantity. A negative issue is
  stored as a positive quantity.
- `add_transaction` stores a transaction type outside `TYPE_CHOICES` unchanged.
- A non-numeric quantity cell in the import raises, and ends the import. It is not skipped.
- Nothing written before an exception is rolled back.

## Model

| member | source | states |
|---|---|---|
| Models.CurrentBalance | core/models.py:20-23 | opening bin balance plus the summed `qty` of the item's entries; with no entries it is the opening bin balance |
| Models.PhysicalBalance | core/models.py:25-27 | opening physical count plus the same movement, so its gap to the current balance is the opening gap, whatever the log |
| Models.Deficit | core/models.py:29-30 | never negative, and equal to `max(0, opening bin − opening physical)`: no transaction changes it |
| Models.Surplus | core/models.py:32-33 | never negative, and equal to `max(0, opening physical − opening bin)`: no transaction changes it |
| Models.DeficitSurplusRelation | core/models.py:29-33 | deficit and surplus are never both positive; deficit − surplus is the opening gap; deficit is `max(0, current − physical)` |
| Models.MovementAppend | core/models.py:22 | the movement over a concatenated log is the sum of the movements of its parts |
| Models.MovementRemove | core/models.py:22 | removing one entry takes exactly its own contribution out of the movement |
| Models.MovementPermutation | core/models.py:22 | `SUM(qty)` does not depend on the order of the rows: permuted logs have equal movement |
| Models.BalancesOrderIndependent | core/models.py:20-27 | both balances are the same for any reordering of the ledger |
| Models.AppendMovesBalance | core/models.py:20-27 | appending an entry moves both balances of its own item by its `qty`, and no other item's |
| Models.AppendKeepsDeficitSurplus | core/models.py:29-33 | appending any entries leaves deficit and surplus unchanged |
| Models.NeedsReorder | core/models.py:35-36 | with an empty ledger, an item needs a reorder iff its opening bin balance is at most its reorder level |
| Models.ReorderAfterEntry | core/models.py:35-36 | an entry of quantity ≤ 0 never clears a reorder need, and one of quantity ≥ 0 never creates one |
| Models.MovementOfOthers | core/models.py:22 | entries of other items contribute nothing to an item's movement |
| Models.MovementSign | core/models.py:22 | entries that are all ≥ 0 sum to at least 0, entries that are all ≤ 0 to at most 0 |
| Models.StoreIdsNamed | import_data.py:19 | the ids listed are exactly those of the stores with that name |
| Models.StoreIdsNamedAppend | import_data.py:19 | adding a store adds its id to the selection of its own name only |
| Models.GetStoreNamed | core/admin.py:25 | succeeds exactly when one store has the name, and returns a store of that name; DoesNotExist exactly when none has it |
| Admin.CurrentBalanceDef | core/admin.py:12-13 | the column shows the item's current balance; the opening bin balance on an empty ledger |
| Admin.ReorderStatus | core/admin.py:16-21 | one of three values: OUT OF STOCK iff balance ≤ 0, REORDER iff 0 < balance ≤ reorder level, AVAILABLE iff balance above both; an item that needs a reorder is never AVAILABLE |
| Admin.AssignSelected | core/admin.py:24-39 | the lookup's exception when the name is not unique, and success whenever it is unique; on success selected items move to that store, the others, the stores and the ledger are unchanged, and the count is the number of selected items |
| Admin.AssignKeepsLedger | core/admin.py:24-39 | moving items between stores changes no balance, status or material number |
| Admin.AssignIdempotent | core/admin.py:24-39 | repeating an assignment gives the same tables and the same count |
| Admin.AssignToSf | core/admin.py:24-27 | is AssignSelected with SF STORE: succeeds iff SF STORE is unique; selected items then belong to a store of that name; other items, the stores and the ledger are unchanged |
| Admin.AssignToComputer | core/admin.py:30-33 | is AssignSelected with COMPUTER STORE, with the same consequences |
| Admin.AssignToMaintenance | core/admin.py:36-39 | is AssignSelected with MAINTENANCE STORE, with the same consequences |
| Views.ReorderItems | core/views.py:9 | only items that need a reorder, each as often as in the item list |
| Views.Urgent | core/views.py:18 | exactly min(20, n) of the n reorder items, none that is not a candidate |
| Views.UrgentAreLowest | core/views.py:18 | the urgent list is sorted by ascending balance, and no item left out has a lower balance than one listed |
| Views.LowestPart | core/views.py:18 | the first k of a sorted list are at most every element cut off, and are all of it when k is its length |
| Seqs.SortedPrefixIsLowest | core/views.py:18 | `s[:k]` of a sorted list holds its lowest elements |
| Views.Home | core/views.py:7-20 | item count; reorder count; low-stock count equal to it; exactly min(20, reorder count) urgent items, all needing a reorder and taken from the items |
| Views.HomeUrgentAreLowest | core/views.py:18 | the home page's urgent list is sorted by balance and holds the lowest balances among the reorder items |
| Views.ByBalanceIsTotalPreorder | core/views.py:18 | the sort key compares any two items and chains |
| Views.ByMaterialIsTotalPreorder | core/views.py:30 | ordering by material number compares any two items and chains |
| Views.OrderByMaterial | core/views.py:30 | the same items, in ascending material-number order |
| Views.InStore | core/views.py:30 | exactly the items of that store, each as often as in the list |
| Views.StockList | core/views.py:22-42 | ordered by material number; a parsable `store` value selects that store's items, anything else all items; the page shows no selection iff the value is missing, empty or 0 |
| Views.StockListShowsOnlyThatStore | core/views.py:27-30 | with a store filter, every listed item belongs to the store and every item of the store is listed |
| Views.AddTransactionForm | core/views.py:73-79 | all items, ordered by material number |
| Views.EntryQuantity | core/views.py:58-60 | an Issue is stored as the negated entry, any other type as entered; the magnitude is kept |
| Views.EntryQuantityMagnitude | core/views.py:58-60 | a receipt of n is stored as n, an issue of n ≥ 0 as −n; the stored magnitude is always the entered one |
| Views.AddTransaction | core/views.py:47-71 | ValueError when the quantity is not an integer; 404 for an unknown item; otherwise exactly one entry dated today is appended, moving that item's balance by the signed quantity and no other item's, and the message reports `abs(quantity)`, unit, description and lower-cased type |
| Views.ExportItems | core/views.py:106-110 | all items without a `store` value, that store's items with a numeric one, an error with a non-numeric one |
| Views.ExportStatus | core/views.py:120 | OUT OF STOCK iff balance ≤ 0, REORDER iff 0 < balance ≤ reorder level, AVAILABLE otherwise |
| Strings.StripStart | import_data.py:54 | a suffix of the input that starts with a non-space, after only whitespace |
| Strings.StripEnd | import_data.py:54 | a prefix of the input that ends with a non-space, followed by only whitespace |
| Strings.Strip | import_data.py:54 | no longer than the input, and neither end of the result is whitespace |
| Strings.StripNoSpace | import_data.py:54 | text without whitespace is left unchanged |
| Strings.LowerChar | core/views.py:70 | an upper-case ASCII letter becomes its lower-case partner, anything else is kept |
| Strings.UpperChar | import_data.py:108 | a lower-case ASCII letter becomes its upper-case partner, anything else is kept |
| Strings.SameUpToCase | import_data.py:108 | two characters agree in upper case iff they agree in lower case |
| Strings.Lower | core/views.py:70 | each character lowered by LowerChar, so the length is kept, no upper-case letter remains and every other character is unchanged |
| Strings.LowerIdempotent | core/views.py:70 | lowering twice is lowering once |
| Strings.Capitalize | import_data.py:108 | same length; the first character upper-cased, every other one lower-cased |
| Strings.CapitalizeIdempotent | import_data.py:108 | capitalizing twice is capitalizing once |
| Strings.CapitalizeUpToCase | import_data.py:108 | two strings capitalize alike iff they are equal up to case |
| Strings.IntToDecimal | core/views.py:70 | a non-empty rendering that starts with '-' iff the number is negative |
| Strings.ParseInt | core/views.py:52 | no integer is read from blank text |
| Strings.ParseIntOfDecimal | core/views.py:52 | `int(str(n)) == n` for every integer |
| Strings.StrLeTotal | core/views.py:30 | any two strings compare |
| Strings.StrLeTransitive | core/views.py:30 | the order chains |
| Strings.StrLeAntisymmetric | core/views.py:30 | strings that compare both ways are equal |
| Seqs.Filter | core/views.py:9 | the elements satisfying the condition, each as often as in the input |
| Seqs.SortBy | core/views.py:18 | a permutation of its input |
| Seqs.SortBySorted | core/views.py:18 | sorted when the key is a total preorder |
| ImportData.Get | import_data.py:51 | `row[i]` inside the row, IndexError past its end |
| ImportData.IntOf | import_data.py:58 | a number cell as is, text through `int()` or ValueError, anything else TypeError |
| ImportData.IntOfStrNumber | import_data.py:58 | `int(str(c))` is `int(c)` for a number cell |
| ImportData.NumberOr0 | import_data.py:58-61 | 0 for an empty cell or empty text, `int()` of anything else |
| ImportData.ReadNumber | import_data.py:58-61 | the NumberOr0 of the cell, or IndexError past the end of the row |
| ImportData.GetOrCreateStore | import_data.py:19 | unchanged when one store has the name; one fresh store added when none has it; MultipleObjectsReturned exactly when several do |
| ImportData.NextStoreId | import_data.py:19 | larger than every id in use |
| ImportData.StoresPass | import_data.py:16-19 | no store is lost, and the number of stores grows by exactly the number created |
| ImportData.EnsureStores | import_data.py:16-19 | the loop computes the fold of `get_or_create` over the three names |
| ImportData.StoresPassGrows | import_data.py:16-19 | no store is lost, and a name is shared by several stores afterwards iff it was before |
| ImportData.StoresPassOutcome | import_data.py:16-19 | on success each of the names belongs to exactly one store; the step fails iff a name was already shared |
| ImportData.StoresPassKeeps | import_data.py:16-19 | when each name already has one store nothing is created |
| ImportData.HeaderSearch | import_data.py:29-36 | a header found is a row of the sheet whose second cell is 'Material No'; the only exceptions are HeaderNotFound and IndexError |
| ImportData.HeaderSearchFindsFirst | import_data.py:26-36 | the header row is the first of the first ten rows whose second cell is 'Material No'; HeaderNotFound iff all of them were read and none matched |
| ImportData.FindHeader | import_data.py:29-32 | the loop computes that search |
| ImportData.IndexOf | import_data.py:41 | the first position holding the title, or an error when the title is absent |
| ImportData.IndexesOf | import_data.py:41-47 | every title's first position, or the error of the first absent title |
| ImportData.ColumnMap | import_data.py:40-47 | succeeds iff all seven titles occur; each field is the first position of its title; otherwise the first missing title in source order is named |
| ImportData.TextOrBlank | import_data.py:55-56 | a falsy cell gives "", any other its `str()` stripped |
| ImportData.StoreNamed | import_data.py:64 | the unique SF STORE, or the lookup's exception |
| ImportData.ItemFrom | import_data.py:54-77 | the item's stripped material number, description, unit, four numbers and store, each as the row gives it |
| ImportData.ItemFromSucceeds | import_data.py:55-64 | a row gives an item iff its description and unit cells exist, its four numbers read and SF STORE is unique |
| ImportData.ParseItem | import_data.py:50-64 | skipped iff the material cell is empty; IndexError for a row without it; otherwise exactly the item or the exception of ItemFrom |
| ImportData.ItemStepUpserts | import_data.py:66-89 | nothing happens once an exception has been raised; otherwise an exception is recorded, a row without material is passed over, and an item is written under its material number and counted iff that number is new |
| ImportData.ImportItems | import_data.py:49-89 | the loop computes the fold of the upsert over the data rows |
| ImportData.UpsertCount | import_data.py:66-79 | writing under a key adds one new key or none |
| ImportData.ItemStepCount | import_data.py:66-79 | one upsert keeps `items_created` equal to the number of new keys |
| ImportData.ItemPassCount | import_data.py:49-89 | no key is lost, and `items_created` is exactly the number of new material numbers |
| ImportData.ItemPassKeyed | import_data.py:66-89 | every item is filed under its own material number |
| ImportData.ItemStepOverlay | import_data.py:66-89 | an upsert over old items overlays what it does from scratch |
| ImportData.ItemPassOverlay | import_data.py:49-89 | the items after the pass are the old ones overwritten by those the sheet alone yields; failure does not depend on the old items |
| ImportData.ItemPassKeepsOthers | import_data.py:49-89 | an old item that the pass over the rows alone does not produce keeps every field |
| ImportData.ItemPassFilesLast | import_data.py:49-89 | a pass without exception read every row, and each material number holds the item of the last row that yields it |
| ImportData.ItemPassOrigins | import_data.py:49-89 | every material number afterwards was there before or is yielded by some row |
| ImportData.ItemPassUntouched | import_data.py:49-89 | an old item whose material number no row yields keeps every field |
| ImportData.ItemPassIdempotent | import_data.py:49-89 | a second pass over the same rows changes nothing and creates nothing |
| ImportData.ImportSignedQty | import_data.py:114-118 | a receipt keeps the quantity; any other type stores `-abs(qty)`, never positive |
| ImportData.ReceiptInAnyCase | import_data.py:108-115 | the type cell makes a receipt iff it spells "receipt" in any mix of cases |
| ImportData.QtyOf | import_data.py:110-111 | 0 for a falsy cell, `int()` otherwise |
| ImportData.EntryFrom | import_data.py:101-133 | once cells 1, 2, 6 and 7 read, None for an unknown material and an entry for a known one; an entry has the entry's material, date (or 1 January 2025), document number, capitalized type ("Issue" by default), signed quantity and department, as the row gives them |
| ImportData.ParseTransaction | import_data.py:97-124 | IndexError for an empty row; skipped when the date or the material cell is falsy; a recorded entry refers to a known item and is not positive unless it is a receipt |
| ImportData.ReplayStep | import_data.py:120-134 | nothing happens once an exception has been raised; otherwise an exception is recorded, a skipped row changes nothing, and an entry is appended and counted; at most one entry per step |
| ImportData.ReplayStepRecords | import_data.py:120-134 | a step raises nothing iff nothing was raised before and the row parses, and then appends what the row records |
| ImportData.ReplayPass | import_data.py:97-134 | the old log is a prefix of the new one, and `trans_created` is the number of entries appended |
| ImportData.ReplayRaisesNothing | import_data.py:97-134 | the replay raises nothing iff every row parses |
| ImportData.ReplayPassNext | import_data.py:97-134 | one turn of the loop: an exception ends the whole replay with the state so far; a skipped row leaves the state alone; a parsed entry is appended and counted |
| ImportData.ReplayRecordsEntries | import_data.py:97-134 | a replay without exception leaves the old log followed by the entries the rows describe, in order, and `trans_created` is their number |
| ImportData.ReplayStopsAtFirstError | import_data.py:97-134 | a replay with an exception stopped at the first row that does not parse, raising its exception after appending the entries of the rows before it |
| ImportData.Entries | import_data.py:97-134 | at most one entry per row |
| ImportData.ReplayTransactions | import_data.py:97-134 | the loop computes that fold |
| ImportData.ReplayStepAppends | import_data.py:114-133 | one step keeps every appended entry known and correctly signed |
| ImportData.ReplayAppends | import_data.py:114-133 | every appended entry refers to a known item, and only receipts are positive |
| ImportData.ReplayPassShift | import_data.py:97-134 | what the replay appends does not depend on the log it appends to |
| ImportData.ReplayMovesBalances | import_data.py:97-134 | each balance moves by the movement of the appended entries; a replay without receipts never raises a balance |
| ImportData.ReplayAsWritten | import_data.py:126-133 | as written, the log is left unchanged and nothing is counted |
| ImportData.AsWrittenRecordsNothing | import_data.py:126-133 | as written, the replay never records an entry and fails wherever the intended one records |
| ImportData.ExampleIssueEntry | import_data.py:98-118 | a dated row for known material 100126 with quantity 20 and no type becomes an issue entry of −20 |
| ImportData.AsWrittenFailsOnAnIssue | import_data.py:131 | a concrete issue row for a known item: one entry as intended, TypeError as written |
| ImportData.DataRows | import_data.py:50 | the rows from the given index on |
| ImportData.ImportSpec | import_data.py:16-134 | the stores are those step 1 leaves; when step 1 fails, nothing else changes and both counters are 0 |
| ImportData.ImportAppendsEntries | import_data.py:97-134 | an import without exception appends exactly the entries the transaction rows describe, and counts them |
| ImportData.RunImport | import_data.py:16-134 | the script computes the composition of the passes, stopping at the first exception |
| ImportData.ImportWithoutHeader | import_data.py:34-47 | without a header row or a required column, no item and no entry is written |
| ImportData.ImportOutcome | import_data.py:16-134 | stores, item keys and ledger entries are never lost; `items_created` counts new material numbers and `trans_created` appended entries; items stay keyed; every new entry is known and correctly signed |
| ImportData.ReimportDuplicatesLedger | import_data.py:16-134 | re-importing the same workbook leaves stores and items as they were and creates no item, but appends the same entries to the ledger again |
| Properties.ExportStatusIsReorderStatus | core/views.py:120 | the export's status cell equals the admin status column |
| Properties.SignRulesAgree | import_data.py:114-118 | for a receipt or an issue of n ≥ 0, the form and the importer store the same quantity |
| Properties.SignRulesDiverge | core/views.py:58-60 | with a negative issue or a positive quantity of an unknown type, the form stores a positive quantity where the importer stores a negative one |
| Properties.WorkedExample | core/models.py:20-36 | opening at 50 with level 10: +20 gives 70, AVAILABLE; −65 gives 5, REORDER; −10 gives −5, OUT OF STOCK; deficit and surplus stay 0 |

## Left out

- Rendering, templates, `messages`, redirects, `login_required` and the `message_user` text of the admin actions are not modelled. Views return their context values, and the admin actions return the `updated` count.
- The clock is a parameter: `AddTransaction` takes `today`. The `today` strings of the page contexts are not modelled.
- Spreadsheet I/O (openpyxl, workbook loading, the `Stock List` export workbook's cell layout, `print`) is not modelled. The import takes the two sheets as sequences of rows, and the export is reduced to its item selection and status cell. The model accepts rows of different lengths, while openpyxl pads every row to the width of the sheet. So the IndexError that ParseTransaction gives for an empty row, and that ParseItem gives for a row without the material cell, happens in the code only when the sheet is narrower than the column being read. A blank spreadsheet row is skipped, and so is a full-width row of empty cells in the model.
- `item_detail`, `transaction_history`, the `__str__` methods, the admin `list_display`/`list_filter`/`search_fields`/`list_editable` settings and the `stores` list in the stock-list context are plain queries or presentation and are not modelled.
- Items are keyed by `material_no`, which the model declares unique. Django's integer primary key is not modelled, so `AddTransaction` and the admin actions select items by material number.
- Store ids are allocated as one more than the largest in use. Django leaves allocation to the database.
- `ParseInt` reads ASCII decimal integers with an optional sign and surrounding ASCII whitespace. Python's underscores, non-ASCII digits and whitespace are not modelled. The same holds for `Lower` and `Capitalize`, which change only ASCII letters.
- Float and boolean cells, and date-times with a time of day, are not modelled. A cell is empty, text, a whole number or a date.
- Integer width is not modelled. Django's `IntegerField` is 32-bit in most databases, but the model's integers are unbounded.
- Ordering by `material_no` uses code-point order. Database collations might sort differently.
- The import keeps the fixed data start rows (row 4 for items, row 3 for transactions) wherever the header row was found, as the code does. A header found below row 3 is itself then read as a data row.
- Django's `get_or_create` race and the absence of a surrounding transaction are not modelled. The model commits each write at once, as autocommit does, so partial state survives an exception.
- Strings.Strip: the contract states the length bound and the non-space ends, not that the result is the input with its leading and trailing whitespace removed. StripStart and StripEnd state those halves.
- Seqs.SortBy: stability of the sort is not stated; the contract states sortedness (SortBySorted) and permutation only.
- Strings.ParseInt: the contract states only that blank text is rejected; that it reads back decimal renderings is ParseIntOfDecimal.

## Findings

| source | as written | input that shows it | evidently intended | confidence | as-written member | corrected member |
|---|---|---|---|---|---|---|
| import_data.py:131 | `Transaction.objects.create(..., quantity=quantity, ...)`: `quantity` is not a field of `Transaction` (the field is `qty`, core/models.py:51), so the first row that would record an entry raises TypeError and the replay records nothing | a transaction row dated 1 March 2025 for known material 100126 with quantity 20 and no type (an issue): `[DateTime(2025-03-01), Empty, Empty, Text("100126"), Empty, Empty, Number(20), Empty]` | `qty=quantity`, recording an entry of −20 | high (not executed) | ImportData.AsWrittenFailsOnAnIssue | ImportData.ReplayPass |
