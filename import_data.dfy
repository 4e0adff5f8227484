/**
 * The spreadsheet importer of import_data.py: it makes sure the three stores exist,
 * finds the header row of the stock control sheet, maps the required columns by
 * their labels, upserts one item per data row keyed by material number, and replays
 * the rows of the store's transaction sheet as signed ledger entries.
 *
 * A sheet is a sequence of rows of cells as a spreadsheet reader hands them over.
 * Each write is committed on its own, so an exception part-way through keeps what
 * was written before it: a pass returns its state, its counter and the error, if any.
 */
module ImportData {
  import opened Wrappers
  import opened Strings
  import opened Models

  /** A cell value: empty (`None`), text, a whole number, or a date-time. */
  datatype Cell = Empty | Text(text: string) | Number(n: int) | DateTime(d: Date)

  type Row = seq<Cell>

  /** The exceptions that end the import. */
  datatype ImportError =
    | HeaderNotFound
    | MissingColumn(column: string)
    | IndexError
    | ValueError
    | TypeError
    | StoreLookup(reason: LookupError)

  /** `row[i]`, which raises IndexError past the end of the row. */
  function Get(row: Row, i: nat): (r: Result<Cell, ImportError>)
    ensures r.Ok? <==> i < |row|
    ensures r.Ok? ==> r.value == row[i]
    ensures r.Err? ==> r.error == IndexError
  {
    if i < |row| then Ok(row[i]) else Err(IndexError)
  }

  /** Python truthiness of a cell value. */
  predicate Truthy(c: Cell) {
    match c
    case Empty => false
    case Text(t) => t != []
    case Number(n) => n != 0
    case DateTime(_) => true
  }

  function PadLeft(s: string, width: nat): string
    decreases width - |s|
  {
    if |s| >= width then s else PadLeft("0" + s, width)
  }

  /** `str()` of a spreadsheet date-time, which has midnight as its time of day. */
  function DateText(d: Date): string {
    PadLeft(IntToDecimal(d.year), 4) + "-" + PadLeft(IntToDecimal(d.month), 2) + "-"
      + PadLeft(IntToDecimal(d.day), 2) + " 00:00:00"
  }

  /** Python's `str()` of a cell value. */
  function Str(c: Cell): string {
    match c
    case Empty => "None"
    case Text(t) => t
    case Number(n) => IntToDecimal(n)
    case DateTime(d) => DateText(d)
  }

  /** Python's `int()` of a cell value: text is parsed, `None` and dates raise TypeError. */
  function IntOf(c: Cell): (r: Result<int, ImportError>)
    ensures c.Number? ==> r == Ok(c.n)
    ensures c.Text? ==> (r.Ok? <==> ParseInt(c.text).Some?)
    ensures c.Text? && r.Ok? ==> Some(r.value) == ParseInt(c.text)
    ensures r.Err? ==> r.error == (if c.Text? then ValueError else TypeError)
  {
    match c
    case Number(n) => Ok(n)
    case Text(t) => (match ParseInt(t) case Some(n) => Ok(n) case None => Err(ValueError))
    case _ => Err(TypeError)
  }

  /** A number cell rendered with `str()` reads back as the same number. */
  lemma IntOfStrNumber(n: int)
    ensures IntOf(Text(Str(Number(n)))) == IntOf(Number(n))
  {
    ParseIntOfDecimal(n);
  }

  /** `int(c) if c not in [None, ""] else 0`. */
  function NumberOr0(c: Cell): (r: Result<int, ImportError>)
    ensures (c == Empty || c == Text("")) ==> r == Ok(0)
    ensures c.Number? ==> r == Ok(c.n)
    ensures c.DateTime? ==> r == Err(TypeError)
    ensures c.Text? && c.text != "" ==> r == IntOf(c)
  {
    if c == Empty || c == Text("") then Ok(0) else IntOf(c)
  }

  // ---------------------------------------------------------------- stores

  const SfStore: string := "SF STORE"
  const ComputerStore: string := "COMPUTER STORE"
  const MaintenanceStore: string := "MAINTENANCE STORE"
  const StoreNames: seq<string> := [SfStore, ComputerStore, MaintenanceStore]

  /** The key a new store row receives: larger than every key in use. */
  function NextStoreId(stores: seq<Store>): (r: StoreId)
    ensures forall s :: s in stores ==> s.id < r
  {
    if stores == [] then 0
    else
      var rest := NextStoreId(stores[1..]);
      assert stores == [stores[0]] + stores[1..];
      if stores[0].id + 1 > rest then stores[0].id + 1 else rest
  }

  /**
   * `Store.objects.get_or_create(name=name)`: nothing happens when exactly one store has
   * the name, a store is added when none has it, and several raise MultipleObjectsReturned.
   */
  function GetOrCreateStore(stores: seq<Store>, name: string): (r: Result<seq<Store>, ImportError>)
    ensures r.Err? <==> |StoreIdsNamed(stores, name)| > 1
    ensures r.Err? ==> r.error == StoreLookup(MultipleObjectsReturned)
    ensures r.Ok? ==> |StoreIdsNamed(r.value, name)| == 1
    ensures r.Ok? && |StoreIdsNamed(stores, name)| == 1 ==> r.value == stores
    ensures r.Ok? && |StoreIdsNamed(stores, name)| == 0 ==>
              exists id: StoreId :: r.value == stores + [Store(id, name)] && forall s :: s in stores ==> s.id != id
  {
    var ids := StoreIdsNamed(stores, name);
    if |ids| == 0 then
      var s := Store(NextStoreId(stores), name);
      StoreIdsNamedAppend(stores, s, name);
      Ok(stores + [s])
    else if |ids| == 1 then Ok(stores)
    else Err(StoreLookup(MultipleObjectsReturned))
  }

  /** The outcome of a pass over a sequence: the state reached, the counter, and the exception that ended it. */
  datatype Pass<S> = Pass(state: S, count: nat, error: Option<ImportError>)

  /** One `get_or_create`; once an exception has been raised nothing more happens. */
  function StoreStep(p: Pass<seq<Store>>, name: string): Pass<seq<Store>> {
    if p.error.Some? then p
    else match GetOrCreateStore(p.state, name)
      case Err(e) => p.(error := Some(e))
      case Ok(s) => Pass(s, if s == p.state then p.count else p.count + 1, None)
  }

  /** Step 1: `get_or_create` for each name in turn; `count` is the number of stores created. */
  function StoresPass(stores: seq<Store>, names: seq<string>): (p: Pass<seq<Store>>)
    ensures stores <= p.state && |p.state| == |stores| + p.count
  {
    if names == [] then Pass(stores, 0, None)
    else StoreStep(StoresPass(stores, names[..|names| - 1]), names[|names| - 1])
  }

  lemma {:induction false} StoresPassStops(stores: seq<Store>, names: seq<string>, n: nat)
    requires n <= |names| && StoresPass(stores, names[..n]).error.Some?
    ensures StoresPass(stores, names) == StoresPass(stores, names[..n])
    decreases |names| - n
  {
    if n < |names| {
      assert names[..|names| - 1][..n] == names[..n];
      StoresPassStops(stores, names[..|names| - 1], n);
    } else {
      assert names[..n] == names;
    }
  }

  /** The loop of step 1. */
  method EnsureStores(stores: seq<Store>) returns (p: Pass<seq<Store>>)
    ensures p == StoresPass(stores, StoreNames)
  {
    var state := stores;
    var created := 0;
    var i := 0;
    while i < |StoreNames|
      invariant 0 <= i <= |StoreNames|
      invariant StoresPass(stores, StoreNames[..i]) == Pass(state, created, None)
    {
      assert StoreNames[..i + 1][..i] == StoreNames[..i];
      var r := GetOrCreateStore(state, StoreNames[i]);
      assert StoresPass(stores, StoreNames[..i + 1]) == StoreStep(Pass(state, created, None), StoreNames[i]);
      if r.Err? {
        StoresPassStops(stores, StoreNames, i + 1);
        return Pass(state, created, Some(r.error));
      }
      if r.value != state {
        created := created + 1;
      }
      state := r.value;
      i := i + 1;
    }
    assert StoreNames[..i] == StoreNames;
    p := Pass(state, created, None);
  }

  /** A successful `get_or_create` keeps the old stores and adds one of that name only if there was none. */
  lemma GetOrCreateCounts(stores: seq<Store>, name: string, n: string)
    requires GetOrCreateStore(stores, name).Ok?
    ensures stores <= GetOrCreateStore(stores, name).value
    ensures |StoreIdsNamed(GetOrCreateStore(stores, name).value, n)|
            == |StoreIdsNamed(stores, n)| + (if n == name && |StoreIdsNamed(stores, n)| == 0 then 1 else 0)
  {
    if |StoreIdsNamed(stores, name)| == 0 {
      StoreIdsNamedAppend(stores, Store(NextStoreId(stores), name), n);
    }
  }

  /**
   * Step 1 keeps every old store, and a name is shared by several stores after it
   * exactly when it was before.
   */
  lemma {:induction false} StoresPassGrows(stores: seq<Store>, names: seq<string>)
    ensures stores <= StoresPass(stores, names).state
    ensures forall n :: |StoreIdsNamed(StoresPass(stores, names).state, n)| > 1 <==> |StoreIdsNamed(stores, n)| > 1
  {
    if names != [] {
      var p := StoresPass(stores, names[..|names| - 1]);
      StoresPassGrows(stores, names[..|names| - 1]);
      if p.error.None? && GetOrCreateStore(p.state, names[|names| - 1]).Ok? {
        forall n ensures |StoreIdsNamed(StoresPass(stores, names).state, n)| > 1 <==> |StoreIdsNamed(p.state, n)| > 1 {
          GetOrCreateCounts(p.state, names[|names| - 1], n);
        }
        GetOrCreateCounts(p.state, names[|names| - 1], "");
      }
    }
  }

  /**
   * Unless step 1 failed, each name it was given belongs to exactly one store; it
   * fails exactly when one of the names was already shared by several stores.
   */
  lemma {:induction false} StoresPassOutcome(stores: seq<Store>, names: seq<string>)
    ensures var p := StoresPass(stores, names);
            p.error.None? ==> forall n :: n in names ==> |StoreIdsNamed(p.state, n)| == 1
    ensures StoresPass(stores, names).error.Some? <==> exists n :: n in names && |StoreIdsNamed(stores, n)| > 1
  {
    if names != [] {
      var init := names[..|names| - 1];
      var last := names[|names| - 1];
      assert names == init + [last];
      StoresPassOutcome(stores, init);
      StoresPassGrows(stores, init);
      var p := StoresPass(stores, init);
      if p.error.Some? {
        var n :| n in init && |StoreIdsNamed(stores, n)| > 1;
        assert n in names;
      } else {
        assert |StoreIdsNamed(p.state, last)| > 1 <==> |StoreIdsNamed(stores, last)| > 1;
        if GetOrCreateStore(p.state, last).Ok? {
          forall n | n in names ensures |StoreIdsNamed(StoresPass(stores, names).state, n)| == 1 {
            GetOrCreateCounts(p.state, last, n);
          }
          forall n | n in names ensures |StoreIdsNamed(stores, n)| <= 1 {
            if n != last { assert n in init; }
          }
        }
      }
    }
  }

  // ---------------------------------------------------------------- header row and column map

  const HeaderWindow: nat := 10
  const MaterialLabel: string := "Material No"
  const DescriptionLabel: string := "Item Description"
  const UnitLabel: string := "Unit of Issue"
  const OpenBinLabel: string := "Opening S5 Bin Card Bal."
  const OpenPhysLabel: string := "Opening Physical Stock Count."
  const ReorderQtyLabel: string := "Reorder Quantity"
  const ReorderLevelLabel: string := "Reorder Levels"

  /** The rows the header search looks at: the first ten, or fewer if the sheet is shorter. */
  function WindowSize(sheet: seq<Row>): nat {
    if |sheet| < HeaderWindow then |sheet| else HeaderWindow
  }

  predicate IsHeader(row: Row) {
    |row| >= 2 && row[1] == Text(MaterialLabel)
  }

  /** A row the search reads and passes over: it has a second cell, and that cell is not the marker. */
  predicate PassedOver(row: Row) {
    |row| >= 2 && row[1] != Text(MaterialLabel)
  }

  /** The search from row `i` on: `row[1] == 'Material No'` for each of the first ten rows. */
  function HeaderSearch(sheet: seq<Row>, i: nat): (r: Result<Row, ImportError>)
    ensures r.Ok? ==> IsHeader(r.value) && r.value in sheet
    ensures r.Err? ==> r.error == HeaderNotFound || r.error == IndexError
    decreases HeaderWindow - i
  {
    if i >= HeaderWindow || i >= |sheet| then Err(HeaderNotFound)
    else if |sheet[i]| < 2 then Err(IndexError)
    else if sheet[i][1] == Text(MaterialLabel) then Ok(sheet[i])
    else HeaderSearch(sheet, i + 1)
  }

  /** Row `j` is the first header row at or after `i` within the window, and every row before it was passed over. */
  ghost predicate FirstHeaderFrom(sheet: seq<Row>, i: nat, j: nat) {
    i <= j < WindowSize(sheet) && IsHeader(sheet[j])
    && forall k :: i <= k < j ==> PassedOver(sheet[k])
  }

  lemma {:induction false} HeaderSearchAt(sheet: seq<Row>, i: nat, j: nat)
    requires FirstHeaderFrom(sheet, i, j)
    ensures HeaderSearch(sheet, i) == Ok(sheet[j])
    decreases j - i
  {
    if j > i {
      assert PassedOver(sheet[i]);
      HeaderSearchAt(sheet, i + 1, j);
    }
  }

  lemma {:induction false} HeaderSearchFrom(sheet: seq<Row>, i: nat)
    requires i <= HeaderWindow
    ensures HeaderSearch(sheet, i).Ok? ==>
              exists j: nat :: FirstHeaderFrom(sheet, i, j) && HeaderSearch(sheet, i).value == sheet[j]
    ensures HeaderSearch(sheet, i) == Err(HeaderNotFound) <==>
              forall k :: i <= k < WindowSize(sheet) ==> PassedOver(sheet[k])
    decreases HeaderWindow - i
  {
    if i < HeaderWindow && i < |sheet| && |sheet[i]| >= 2 {
      if sheet[i][1] == Text(MaterialLabel) {
        assert FirstHeaderFrom(sheet, i, i);
      } else {
        HeaderSearchFrom(sheet, i + 1);
        if HeaderSearch(sheet, i).Ok? {
          var j: nat :| FirstHeaderFrom(sheet, i + 1, j) && HeaderSearch(sheet, i + 1).value == sheet[j];
          assert FirstHeaderFrom(sheet, i, j);
        }
      }
    }
  }

  /**
   * The header row is the first of the first ten rows whose second cell is
   * 'Material No'; the search fails with HeaderNotFound exactly when it read all of
   * them and none matched, and with IndexError at the first row too short to read.
   */
  lemma HeaderSearchFindsFirst(sheet: seq<Row>)
    ensures forall j: nat :: FirstHeaderFrom(sheet, 0, j) ==> HeaderSearch(sheet, 0) == Ok(sheet[j])
    ensures HeaderSearch(sheet, 0).Ok? ==>
              exists j: nat :: FirstHeaderFrom(sheet, 0, j) && HeaderSearch(sheet, 0).value == sheet[j]
    ensures HeaderSearch(sheet, 0) == Err(HeaderNotFound) <==>
              forall k :: 0 <= k < WindowSize(sheet) ==> PassedOver(sheet[k])
  {
    HeaderSearchFrom(sheet, 0);
    forall j: nat | FirstHeaderFrom(sheet, 0, j) ensures HeaderSearch(sheet, 0) == Ok(sheet[j]) {
      HeaderSearchAt(sheet, 0, j);
    }
  }

  /** The loop over rows 1 to 10 that looks for the header row. */
  method FindHeader(sheet: seq<Row>) returns (r: Result<Row, ImportError>)
    ensures r == HeaderSearch(sheet, 0)
  {
    var i := 0;
    while i < HeaderWindow && i < |sheet|
      invariant 0 <= i <= HeaderWindow
      invariant HeaderSearch(sheet, i) == HeaderSearch(sheet, 0)
    {
      var row := sheet[i];
      if |row| < 2 {
        return Err(IndexError);
      }
      if row[1] == Text(MaterialLabel) {
        return Ok(row);
      }
      i := i + 1;
    }
    r := Err(HeaderNotFound);
  }

  /** `i` is the first position of the title in the row. */
  predicate FirstAt(row: Row, title: string, i: nat) {
    i < |row| && row[i] == Text(title) && forall j :: 0 <= j < i ==> row[j] != Text(title)
  }

  /** `headers.index(title)`: the first position holding the title, or an error naming it. */
  function IndexOf(row: Row, title: string): (r: Result<nat, ImportError>)
    ensures r.Ok? ==> FirstAt(row, title, r.value)
    ensures r.Err? ==> r.error == MissingColumn(title) && Text(title) !in row
  {
    if row == [] then Err(MissingColumn(title))
    else if row[0] == Text(title) then Ok(0)
    else
      assert row == [row[0]] + row[1..];
      var k :- IndexOf(row[1..], title);
      Ok(k + 1)
  }

  /** The column index of each required field. */
  datatype Columns = Columns(
    material: nat,
    description: nat,
    unit: nat,
    openBin: nat,
    openPhys: nat,
    reorderQty: nat,
    reorderLevel: nat)

  const ColumnLabels: seq<string> :=
    [MaterialLabel, DescriptionLabel, UnitLabel, OpenBinLabel, OpenPhysLabel, ReorderQtyLabel, ReorderLevelLabel]

  /**
   * `headers.index(t)` for each title in turn: the first position of every title, or
   * the error of the first title that does not occur.
   */
  function IndexesOf(headers: Row, titles: seq<string>): (r: Result<seq<nat>, ImportError>)
    ensures r.Ok? <==> forall k :: 0 <= k < |titles| ==> Text(titles[k]) in headers
    ensures r.Ok? ==> |r.value| == |titles| && forall k :: 0 <= k < |titles| ==> FirstAt(headers, titles[k], r.value[k])
    ensures r.Err? ==>
              exists k :: 0 <= k < |titles| && r.error == MissingColumn(titles[k])
                          && Text(titles[k]) !in headers
                          && forall j :: 0 <= j < k ==> Text(titles[j]) in headers
  {
    if titles == [] then Ok([])
    else
      match IndexOf(headers, titles[0])
      case Err(e) =>
        assert Text(titles[0]) !in headers;
        Err(e)
      case Ok(i) =>
        match IndexesOf(headers, titles[1..])
        case Err(e) =>
          assert Text(titles[0]) in headers;
          assert exists k :: 0 <= k < |titles| - 1 && e == MissingColumn(titles[1..][k])
                             && Text(titles[1..][k]) !in headers
                             && forall j :: 0 <= j < k ==> Text(titles[1..][j]) in headers;
          var k :| 0 <= k < |titles| - 1 && e == MissingColumn(titles[1..][k])
                   && Text(titles[1..][k]) !in headers
                   && forall j :: 0 <= j < k ==> Text(titles[1..][j]) in headers;
          assert forall j :: 0 <= j < k + 1 ==> Text(titles[j]) in headers by {
            forall j | 0 <= j < k + 1 ensures Text(titles[j]) in headers {
              if j > 0 { assert titles[j] == titles[1..][j - 1]; }
            }
          }
          assert titles[k + 1] == titles[1..][k];
          Err(e)
        case Ok(rest) =>
          assert forall k :: 1 <= k < |titles| ==> titles[k] == titles[1..][k - 1];
          Ok([i] + rest)
  }

  /**
   * The column map: every field gets the first position of its title. It exists
   * exactly when all seven titles occur, and otherwise the error names the first
   * title, in the order of the source, that is missing.
   */
  function ColumnMap(headers: Row): (r: Result<Columns, ImportError>)
    ensures r.Ok? <==> forall k :: 0 <= k < |ColumnLabels| ==> Text(ColumnLabels[k]) in headers
    ensures r.Ok? ==>
              && FirstAt(headers, MaterialLabel, r.value.material)
              && FirstAt(headers, DescriptionLabel, r.value.description)
              && FirstAt(headers, UnitLabel, r.value.unit)
              && FirstAt(headers, OpenBinLabel, r.value.openBin)
              && FirstAt(headers, OpenPhysLabel, r.value.openPhys)
              && FirstAt(headers, ReorderQtyLabel, r.value.reorderQty)
              && FirstAt(headers, ReorderLevelLabel, r.value.reorderLevel)
    ensures r.Err? ==>
              exists k :: 0 <= k < |ColumnLabels| && r.error == MissingColumn(ColumnLabels[k])
                          && Text(ColumnLabels[k]) !in headers
                          && forall j :: 0 <= j < k ==> Text(ColumnLabels[j]) in headers
  {
    var ix :- IndexesOf(headers, ColumnLabels);
    assert FirstAt(headers, ColumnLabels[6], ix[6]);
    Ok(Columns(ix[0], ix[1], ix[2], ix[3], ix[4], ix[5], ix[6]))
  }

  // ---------------------------------------------------------------- item pass

  /** `str(c).strip() if c else ""`. */
  function TextOrBlank(c: Cell): (r: string)
    ensures !Truthy(c) ==> r == ""
    ensures Truthy(c) ==> r == Strip(Str(c))
  {
    if Truthy(c) then Strip(Str(c)) else ""
  }

  /** `int(row[i]) if row[i] not in [None, ""] else 0`, IndexError past the end of the row. */
  function ReadNumber(row: Row, i: nat): (r: Result<int, ImportError>)
    ensures i < |row| ==> r == NumberOr0(row[i])
    ensures i >= |row| ==> r == Err(IndexError)
  {
    var c :- Get(row, i);
    NumberOr0(c)
  }

  /** `Store.objects.get(name=name)`, its exceptions as import errors. */
  function StoreNamed(stores: seq<Store>, name: string): (r: Result<StoreId, ImportError>)
    ensures r.Ok? ==> GetStoreNamed(stores, name) == Ok(r.value)
    ensures r.Err? ==> GetStoreNamed(stores, name).Err? && r.error == StoreLookup(GetStoreNamed(stores, name).error)
  {
    match GetStoreNamed(stores, name)
    case Ok(id) => Ok(id)
    case Err(e) => Err(StoreLookup(e))
  }

  /**
   * The item a data row with a material cell `m` describes, placed in the SF store;
   * the remaining cells are read in the order of the source, so the first bad cell
   * decides the error.
   */
  function ItemFrom(row: Row, cols: Columns, stores: seq<Store>, m: Cell): (r: Result<Item, ImportError>)
    ensures r.Ok? ==>
              && r.value.materialNo == Strip(Str(m))
              && cols.description < |row| && r.value.description == TextOrBlank(row[cols.description])
              && cols.unit < |row| && r.value.unit == TextOrBlank(row[cols.unit])
              && ReadNumber(row, cols.openBin) == Ok(r.value.openingBinBalance)
              && ReadNumber(row, cols.openPhys) == Ok(r.value.openingPhysical)
              && ReadNumber(row, cols.reorderQty) == Ok(r.value.reorderQuantity)
              && ReadNumber(row, cols.reorderLevel) == Ok(r.value.reorderLevel)
              && GetStoreNamed(stores, SfStore) == Ok(r.value.store)
  {
    var d :- Get(row, cols.description);
    var u :- Get(row, cols.unit);
    var openBin :- ReadNumber(row, cols.openBin);
    var openPhys :- ReadNumber(row, cols.openPhys);
    var reorderQty :- ReadNumber(row, cols.reorderQty);
    var reorderLevel :- ReadNumber(row, cols.reorderLevel);
    var store :- StoreNamed(stores, SfStore);
    Ok(Item(store, Strip(Str(m)), TextOrBlank(d), TextOrBlank(u), openBin, openPhys, reorderQty, reorderLevel))
  }

  /**
   * A data row gives an item exactly when its description and unit cells exist, its four
   * numbers read, and SF STORE is a unique store.
   */
  lemma ItemFromSucceeds(row: Row, cols: Columns, stores: seq<Store>, m: Cell)
    ensures ItemFrom(row, cols, stores, m).Ok? <==>
              && cols.description < |row| && cols.unit < |row|
              && ReadNumber(row, cols.openBin).Ok? && ReadNumber(row, cols.openPhys).Ok?
              && ReadNumber(row, cols.reorderQty).Ok? && ReadNumber(row, cols.reorderLevel).Ok?
              && GetStoreNamed(stores, SfStore).Ok?
  {
  }

  /** One data row of the stock control sheet: None when its material cell is empty, else its item. */
  function ParseItem(row: Row, cols: Columns, stores: seq<Store>): (r: Result<Option<Item>, ImportError>)
    ensures r == Ok(None) <==> cols.material < |row| && row[cols.material] == Empty
    ensures cols.material >= |row| ==> r == Err(IndexError)
    ensures r.Ok? && r.value.Some? ==>
              cols.material < |row| && ItemFrom(row, cols, stores, row[cols.material]) == Ok(r.value.value)
    ensures cols.material < |row| && row[cols.material] != Empty ==>
              var it := ItemFrom(row, cols, stores, row[cols.material]);
              && (it.Ok? ==> r == Ok(Some(it.value)))
              && (it.Err? ==> r == Err(it.error))
  {
    var m :- Get(row, cols.material);
    if m == Empty then Ok(None)
    else
      var it :- ItemFrom(row, cols, stores, m);
      Ok(Some(it))
  }

  /** `get_or_create` followed by the update of every field: the item ends up stored under its material number. */
  function ItemStep(p: Pass<map<string, Item>>, parsed: Result<Option<Item>, ImportError>)
    : Pass<map<string, Item>>
  {
    if p.error.Some? then p
    else match parsed
      case Err(e) => p.(error := Some(e))
      case Ok(None) => p
      case Ok(Some(it)) =>
        Pass(p.state[it.materialNo := it], if it.materialNo in p.state then p.count else p.count + 1, None)
  }

  /**
   * A step after an exception does nothing; otherwise an exception is recorded, a row
   * without material is passed over, and an item is written under its material number,
   * counted when that number is new.
   */
  lemma ItemStepUpserts(p: Pass<map<string, Item>>, parsed: Result<Option<Item>, ImportError>)
    ensures var q := ItemStep(p, parsed);
            && (p.error.Some? ==> q == p)
            && (p.error.None? && parsed.Err? ==> q == p.(error := Some(parsed.error)))
            && (p.error.None? && parsed == Ok(None) ==> q == p)
            && (p.error.None? && parsed.Ok? && parsed.value.Some? ==>
                  var it := parsed.value.value;
                  q == Pass(p.state[it.materialNo := it], p.count + (if it.materialNo in p.state then 0 else 1), None))
  {
  }

  /** Step 2 over the data rows; `count` is `items_created`. */
  function ItemPass(items: map<string, Item>, rows: seq<Row>, cols: Columns, stores: seq<Store>)
    : (p: Pass<map<string, Item>>)
  {
    if rows == [] then Pass(items, 0, None)
    else ItemStep(ItemPass(items, rows[..|rows| - 1], cols, stores), ParseItem(rows[|rows| - 1], cols, stores))
  }

  lemma {:induction false} ItemPassStops(items: map<string, Item>, rows: seq<Row>, cols: Columns, stores: seq<Store>, n: nat)
    requires n <= |rows| && ItemPass(items, rows[..n], cols, stores).error.Some?
    ensures ItemPass(items, rows, cols, stores) == ItemPass(items, rows[..n], cols, stores)
    decreases |rows| - n
  {
    if n < |rows| {
      assert rows[..|rows| - 1][..n] == rows[..n];
      ItemPassStops(items, rows[..|rows| - 1], cols, stores, n);
    } else {
      assert rows[..n] == rows;
    }
  }

  /** One turn of the item loop: how the pass over one more row follows from the pass so far. */
  lemma ItemPassNext(items: map<string, Item>, rows: seq<Row>, cols: Columns, stores: seq<Store>,
                     i: nat, state: map<string, Item>, created: nat)
    requires i < |rows| && ItemPass(items, rows[..i], cols, stores) == Pass(state, created, None)
    ensures var parsed := ParseItem(rows[i], cols, stores);
            && (parsed.Err? ==> ItemPass(items, rows, cols, stores) == Pass(state, created, Some(parsed.error)))
            && (parsed == Ok(None) ==> ItemPass(items, rows[..i + 1], cols, stores) == Pass(state, created, None))
            && (parsed.Ok? && parsed.value.Some? ==>
                  var it := parsed.value.value;
                  ItemPass(items, rows[..i + 1], cols, stores)
                  == Pass(state[it.materialNo := it], created + (if it.materialNo in state then 0 else 1), None))
  {
    assert rows[..i + 1][..i] == rows[..i];
    var parsed := ParseItem(rows[i], cols, stores);
    assert ItemPass(items, rows[..i + 1], cols, stores) == ItemStep(Pass(state, created, None), parsed);
    if parsed.Err? {
      ItemPassStops(items, rows, cols, stores, i + 1);
    }
  }

  /** The item loop of step 2. */
  method ImportItems(items: map<string, Item>, rows: seq<Row>, cols: Columns, stores: seq<Store>)
    returns (p: Pass<map<string, Item>>)
    ensures p == ItemPass(items, rows, cols, stores)
  {
    var state := items;
    var created := 0;
    var i := 0;
    while i < |rows|
      invariant 0 <= i <= |rows|
      invariant ItemPass(items, rows[..i], cols, stores) == Pass(state, created, None)
    {
      ItemPassNext(items, rows, cols, stores, i, state, created);
      var parsed := ParseItem(rows[i], cols, stores);
      if parsed.Err? {
        return Pass(state, created, Some(parsed.error));
      }
      if parsed.value.Some? {
        var item := parsed.value.value;
        if item.materialNo !in state {
          created := created + 1;
        }
        state := state[item.materialNo := item];
      }
      i := i + 1;
    }
    assert rows[..i] == rows;
    p := Pass(state, created, None);
  }

  /** Writing under a key adds one key that was not there before, or none. */
  lemma UpsertCount<V>(items: map<string, Item>, state: map<string, V>, k: string, v: V)
    requires items.Keys <= state.Keys
    ensures items.Keys <= state[k := v].Keys
    ensures |state[k := v].Keys - items.Keys| == |state.Keys - items.Keys| + (if k in state then 0 else 1)
  {
    if k in state {
      assert state[k := v].Keys == state.Keys;
    } else {
      assert state[k := v].Keys - items.Keys == (state.Keys - items.Keys) + {k};
    }
  }

  lemma ItemStepCount(items: map<string, Item>, p: Pass<map<string, Item>>, r: Result<Option<Item>, ImportError>)
    requires items.Keys <= p.state.Keys && p.count == |p.state.Keys - items.Keys|
    ensures var q := ItemStep(p, r);
            items.Keys <= q.state.Keys && q.count == |q.state.Keys - items.Keys|
  {
    ItemStepUpserts(p, r);
    if p.error.None? && r.Ok? && r.value.Some? {
      UpsertCount(items, p.state, r.value.value.materialNo, r.value.value);
    }
  }

  /** `items_created` counts exactly the material numbers that were not there before, and no key is lost. */
  lemma {:induction false} ItemPassCount(items: map<string, Item>, rows: seq<Row>, cols: Columns, stores: seq<Store>)
    ensures var p := ItemPass(items, rows, cols, stores);
            items.Keys <= p.state.Keys && p.count == |p.state.Keys - items.Keys|
  {
    if rows != [] {
      ItemPassCount(items, rows[..|rows| - 1], cols, stores);
      ItemStepCount(items, ItemPass(items, rows[..|rows| - 1], cols, stores), ParseItem(rows[|rows| - 1], cols, stores));
    }
  }

  /** The pass files every item under its own material number, so there is one item per material number. */
  lemma {:induction false} ItemPassKeyed(items: map<string, Item>, rows: seq<Row>, cols: Columns, stores: seq<Store>)
    requires Keyed(items)
    ensures Keyed(ItemPass(items, rows, cols, stores).state)
  {
    if rows != [] {
      ItemPassKeyed(items, rows[..|rows| - 1], cols, stores);
    }
  }

  /**
   * The sheet is authoritative: the items after the pass are the old items overwritten
   * by those the sheet alone yields, and whether the pass fails does not depend on the old items.
   */
  lemma ItemStepOverlay(items: map<string, Item>, p: Pass<map<string, Item>>, q: Pass<map<string, Item>>,
                        r: Result<Option<Item>, ImportError>)
    requires p.state == items + q.state && p.error == q.error
    ensures ItemStep(p, r).state == items + ItemStep(q, r).state
    ensures ItemStep(p, r).error == ItemStep(q, r).error
  {
    if p.error.None? && r.Ok? && r.value.Some? {
      var it := r.value.value;
      assert (items + q.state)[it.materialNo := it] == items + q.state[it.materialNo := it];
    }
  }

  lemma {:induction false} ItemPassOverlay(items: map<string, Item>, rows: seq<Row>, cols: Columns, stores: seq<Store>)
    ensures var p := ItemPass(items, rows, cols, stores);
            var q := ItemPass(map[], rows, cols, stores);
            p.state == items + q.state && p.error == q.error
  {
    if rows != [] {
      var init := rows[..|rows| - 1];
      ItemPassOverlay(items, init, cols, stores);
      ItemStepOverlay(items, ItemPass(items, init, cols, stores), ItemPass(map[], init, cols, stores),
                      ParseItem(rows[|rows| - 1], cols, stores));
    }
  }

  /** A data row yields an item: it parses, and its material cell is not empty. */
  predicate Yields(row: Row, cols: Columns, stores: seq<Store>) {
    ParseItem(row, cols, stores).Ok? && ParseItem(row, cols, stores).value.Some?
  }

  function Yield(row: Row, cols: Columns, stores: seq<Store>): Item
    requires Yields(row, cols, stores)
  {
    ParseItem(row, cols, stores).value.value
  }

  /** Row `j` yields an item and no later row yields one with the same material number. */
  predicate LastFor(rows: seq<Row>, j: nat, cols: Columns, stores: seq<Store>) {
    j < |rows| && Yields(rows[j], cols, stores)
    && forall k :: j < k < |rows| && Yields(rows[k], cols, stores) ==>
         Yield(rows[k], cols, stores).materialNo != Yield(rows[j], cols, stores).materialNo
  }

  /**
   * A pass that raised nothing read every row without error, and each material number
   * holds the item of the last row that yields it: a later row overwrites an earlier one.
   */
  lemma {:induction false} ItemPassFilesLast(items: map<string, Item>, rows: seq<Row>, cols: Columns, stores: seq<Store>)
    requires ItemPass(items, rows, cols, stores).error.None?
    ensures forall j :: 0 <= j < |rows| ==> ParseItem(rows[j], cols, stores).Ok?
    ensures var s := ItemPass(items, rows, cols, stores).state;
            forall j :: 0 <= j < |rows| && LastFor(rows, j, cols, stores) ==>
              Yield(rows[j], cols, stores).materialNo in s
              && s[Yield(rows[j], cols, stores).materialNo] == Yield(rows[j], cols, stores)
  {
    if rows != [] {
      var n := |rows| - 1;
      var init := rows[..n];
      var p := ItemPass(items, init, cols, stores);
      var parsed := ParseItem(rows[n], cols, stores);
      assert ItemPass(items, rows, cols, stores) == ItemStep(p, parsed);
      ItemStepRaised(p, parsed);
      ItemPassFilesLast(items, init, cols, stores);
      forall j | 0 <= j < n ensures ParseItem(rows[j], cols, stores).Ok? {
        assert init[j] == rows[j];
      }
      forall j | 0 <= j < |rows| && LastFor(rows, j, cols, stores)
        ensures Yield(rows[j], cols, stores).materialNo in ItemStep(p, parsed).state
        ensures ItemStep(p, parsed).state[Yield(rows[j], cols, stores).materialNo] == Yield(rows[j], cols, stores)
      {
        if j < n {
          LastForPrefix(rows, j, cols, stores);
          ItemStepKeeps(p, parsed, Yield(rows[j], cols, stores).materialNo);
        } else {
          assert j == n && parsed.value.Some?;
          ItemStepWrites(p, parsed);
        }
      }
    }
  }

  /** A row that is last for its material number in the sheet is last for it in the sheet without its final row. */
  lemma LastForPrefix(rows: seq<Row>, j: nat, cols: Columns, stores: seq<Store>)
    requires LastFor(rows, j, cols, stores) && j < |rows| - 1
    ensures LastFor(rows[..|rows| - 1], j, cols, stores) && rows[..|rows| - 1][j] == rows[j]
    ensures Yields(rows[|rows| - 1], cols, stores) ==>
              Yield(rows[|rows| - 1], cols, stores).materialNo != Yield(rows[j], cols, stores).materialNo
  {
  }

  lemma ItemStepRaised(p: Pass<map<string, Item>>, parsed: Result<Option<Item>, ImportError>)
    ensures ItemStep(p, parsed).error.None? ==> p.error.None? && parsed.Ok?
  {
  }

  lemma ItemStepKeeps(p: Pass<map<string, Item>>, parsed: Result<Option<Item>, ImportError>, m: string)
    requires m in p.state && !(parsed.Ok? && parsed.value.Some? && parsed.value.value.materialNo == m)
    ensures m in ItemStep(p, parsed).state && ItemStep(p, parsed).state[m] == p.state[m]
  {
  }

  lemma ItemStepWrites(p: Pass<map<string, Item>>, parsed: Result<Option<Item>, ImportError>)
    requires p.error.None? && parsed.Ok? && parsed.value.Some?
    ensures parsed.value.value.materialNo in ItemStep(p, parsed).state
    ensures ItemStep(p, parsed).state[parsed.value.value.materialNo] == parsed.value.value
  {
  }

  lemma ItemStepKeys(p: Pass<map<string, Item>>, parsed: Result<Option<Item>, ImportError>, m: string)
    requires m in ItemStep(p, parsed).state
    ensures m in p.state || (p.error.None? && parsed.Ok? && parsed.value.Some? && parsed.value.value.materialNo == m)
  {
  }

  /** Every material number after the pass was there before or is yielded by some row. */
  lemma {:induction false} ItemPassOrigins(items: map<string, Item>, rows: seq<Row>, cols: Columns, stores: seq<Store>)
    ensures forall m :: m in ItemPass(items, rows, cols, stores).state ==>
              m in items || exists j :: 0 <= j < |rows| && Yields(rows[j], cols, stores) && Yield(rows[j], cols, stores).materialNo == m
  {
    if rows != [] {
      var n := |rows| - 1;
      var init := rows[..n];
      ItemPassOrigins(items, init, cols, stores);
      var p := ItemPass(items, init, cols, stores);
      var parsed := ParseItem(rows[n], cols, stores);
      assert ItemPass(items, rows, cols, stores) == ItemStep(p, parsed);
      forall m | m in ItemStep(p, parsed).state && m !in items
        ensures exists j :: 0 <= j < |rows| && Yields(rows[j], cols, stores) && Yield(rows[j], cols, stores).materialNo == m
      {
        ItemStepKeys(p, parsed, m);
        if m in p.state {
          var j :| 0 <= j < |init| && Yields(init[j], cols, stores) && Yield(init[j], cols, stores).materialNo == m;
          assert init[j] == rows[j];
        } else {
          assert Yields(rows[n], cols, stores);
        }
      }
    }
  }

  /** An old item whose material number no row yields keeps every field. */
  lemma ItemPassUntouched(items: map<string, Item>, rows: seq<Row>, cols: Columns, stores: seq<Store>, k: string)
    requires k in items
    requires forall j :: 0 <= j < |rows| && Yields(rows[j], cols, stores) ==> Yield(rows[j], cols, stores).materialNo != k
    ensures k in ItemPass(items, rows, cols, stores).state
    ensures ItemPass(items, rows, cols, stores).state[k] == items[k]
  {
    ItemPassOrigins(map[], rows, cols, stores);
    ItemPassKeepsOthers(items, rows, cols, stores, k);
  }

  /** Items the pass over the rows alone does not produce keep every field. */
  lemma ItemPassKeepsOthers(items: map<string, Item>, rows: seq<Row>, cols: Columns, stores: seq<Store>, k: string)
    requires k in items && k !in ItemPass(map[], rows, cols, stores).state
    ensures k in ItemPass(items, rows, cols, stores).state
    ensures ItemPass(items, rows, cols, stores).state[k] == items[k]
  {
    ItemPassOverlay(items, rows, cols, stores);
  }

  /** Running the item pass again over the same rows changes nothing and creates nothing. */
  lemma ItemPassIdempotent(items: map<string, Item>, rows: seq<Row>, cols: Columns, stores: seq<Store>)
    requires ItemPass(items, rows, cols, stores).error.None?
    ensures var s := ItemPass(items, rows, cols, stores).state;
            ItemPass(s, rows, cols, stores) == Pass(s, 0, None)
  {
    var s := ItemPass(items, rows, cols, stores).state;
    var q := ItemPass(map[], rows, cols, stores);
    ItemPassOverlay(items, rows, cols, stores);
    ItemPassOverlay(s, rows, cols, stores);
    assert s + q.state == s;
    ItemPassCount(s, rows, cols, stores);
    assert ItemPass(s, rows, cols, stores).state.Keys - s.Keys == {};
  }

  // ---------------------------------------------------------------- transaction replay

  /** The date recorded when the date cell is not a date-time. */
  const FallbackDate: Date := Date(2025, 1, 1)

  /** The replay's sign rule: a receipt keeps the sheet's quantity, anything else is `-abs(qty)`. */
  function ImportSignedQty(kind: string, qty: int): (r: int)
    ensures kind == Receipt ==> r == qty
    ensures kind != Receipt ==> r <= 0 && Abs(r) == Abs(qty)
  {
    if kind == Receipt then qty else -(Abs(qty) as int)
  }

  lemma CapitalizedReceipt()
    ensures Capitalize("receipt") == Receipt && Lower("receipt") == "receipt"
  {
    LowerKeeps("receipt");
    LowerKeeps("eceipt");
    assert "receipt"[1..] == "eceipt";
    assert [UpperChar('r')] + "eceipt" == Receipt;
  }

  /** The kind cell makes a receipt exactly when it spells "receipt" in any mix of upper and lower case. */
  lemma ReceiptInAnyCase(kind: string)
    ensures Capitalize(kind) == Receipt <==> Lower(kind) == "receipt"
  {
    CapitalizedReceipt();
    CapitalizeUpToCase(kind, "receipt");
  }

  /** `int(c) if c else 0` for the quantity cell. */
  function QtyOf(c: Cell): (r: Result<int, ImportError>)
    ensures !Truthy(c) ==> r == Ok(0)
    ensures Truthy(c) ==> r == IntOf(c)
  {
    if Truthy(c) then IntOf(c) else Ok(0)
  }

  /**
   * The entry a transaction row with a date and a material describes, or None when the
   * material is unknown. Cells 1, 2, 6 and 7 are read in this order, so the first bad one
   * decides the error, and an unknown material is only noticed once all are read.
   */
  function EntryFrom(row: Row, items: map<string, Item>, c0: Cell, c3: Cell): (r: Result<Option<Transaction>, ImportError>)
    ensures r.Ok? ==> |row| > 7 && QtyOf(row[6]).Ok?
    ensures |row| > 7 && QtyOf(row[6]).Ok? && Strip(Str(c3)) !in items ==> r == Ok(None)
    ensures |row| > 7 && QtyOf(row[6]).Ok? && Strip(Str(c3)) in items ==> r.Ok? && r.value.Some?
    ensures r.Ok? && r.value.Some? ==>
              var t := r.value.value;
              && t.item == Strip(Str(c3)) && t.item in items
              && t.date == (if c0.DateTime? then c0.d else FallbackDate)
              && t.docNo == (if Truthy(row[1]) then Str(row[1]) else "")
              && t.kind == (if Truthy(row[2]) then Capitalize(Str(row[2])) else Issue)
              && t.qty == ImportSignedQty(t.kind, QtyOf(row[6]).value)
              && t.department == (if Truthy(row[7]) then Str(row[7]) else "")
  {
    var date := if c0.DateTime? then c0.d else FallbackDate;
    var c1 :- Get(row, 1);
    var docNo := if Truthy(c1) then Str(c1) else "";
    var c2 :- Get(row, 2);
    var kind := if Truthy(c2) then Capitalize(Str(c2)) else Issue;
    var material := Strip(Str(c3));
    var c6 :- Get(row, 6);
    var qty :- QtyOf(c6);
    var c7 :- Get(row, 7);
    var department := if Truthy(c7) then Str(c7) else "";
    if material !in items then Ok(None)
    else Ok(Some(Transaction(material, date, docNo, kind, ImportSignedQty(kind, qty), department)))
  }

  /**
   * One row of the transaction sheet: None when the date or the material cell is falsy
   * (checked in that order), otherwise what EntryFrom makes of it.
   */
  function ParseTransaction(row: Row, items: map<string, Item>): (r: Result<Option<Transaction>, ImportError>)
    ensures |row| == 0 ==> r == Err(IndexError)
    ensures |row| > 0 && !Truthy(row[0]) ==> r == Ok(None)
    ensures |row| > 3 && Truthy(row[0]) && !Truthy(row[3]) ==> r == Ok(None)
    ensures |row| > 3 && Truthy(row[0]) && Truthy(row[3]) ==> r == EntryFrom(row, items, row[0], row[3])
    ensures r.Ok? && r.value.Some? ==>
              var t := r.value.value;
              && |row| > 7 && Truthy(row[0]) && Truthy(row[3])
              && t.item in items
              && (t.kind != Receipt ==> t.qty <= 0)
  {
    var c0 :- Get(row, 0);
    if !Truthy(c0) then Ok(None)
    else
      var c3 :- Get(row, 3);
      if !Truthy(c3) then Ok(None)
      else EntryFrom(row, items, c0, c3)
  }

  /** `Transaction.objects.create` for a parsed entry; once an exception has been raised nothing more happens. */
  function ReplayStep(p: Pass<seq<Transaction>>, parsed: Result<Option<Transaction>, ImportError>)
    : (q: Pass<seq<Transaction>>)
    ensures p.error.Some? ==> q == p
    ensures p.error.None? && parsed.Err? ==> q == p.(error := Some(parsed.error))
    ensures p.error.None? && parsed == Ok(None) ==> q == p
    ensures p.error.None? && parsed.Ok? && parsed.value.Some? ==> q == Pass(p.state + [parsed.value.value], p.count + 1, None)
    ensures p.state <= q.state && |q.state| - |p.state| == q.count - p.count <= 1
  {
    if p.error.Some? then p
    else match parsed
      case Err(e) => p.(error := Some(e))
      case Ok(None) => p
      case Ok(Some(t)) => Pass(p.state + [t], p.count + 1, None)
  }

  /** Step 3 over the data rows; `count` is `trans_created`. */
  function ReplayPass(items: map<string, Item>, log: seq<Transaction>, rows: seq<Row>): (p: Pass<seq<Transaction>>)
    ensures |p.state| == |log| + p.count && log <= p.state
  {
    if rows == [] then Pass(log, 0, None)
    else ReplayStep(ReplayPass(items, log, rows[..|rows| - 1]), ParseTransaction(rows[|rows| - 1], items))
  }

  lemma {:induction false} ReplayPassStops(items: map<string, Item>, log: seq<Transaction>, rows: seq<Row>, n: nat)
    requires n <= |rows| && ReplayPass(items, log, rows[..n]).error.Some?
    ensures ReplayPass(items, log, rows) == ReplayPass(items, log, rows[..n])
    decreases |rows| - n
  {
    if n < |rows| {
      assert rows[..|rows| - 1][..n] == rows[..n];
      ReplayPassStops(items, log, rows[..|rows| - 1], n);
    } else {
      assert rows[..n] == rows;
    }
  }

  /** One turn of the transaction loop: how the replay over one more row follows from the replay so far. */
  lemma ReplayPassNext(items: map<string, Item>, log: seq<Transaction>, rows: seq<Row>,
                       i: nat, state: seq<Transaction>, created: nat)
    requires i < |rows| && ReplayPass(items, log, rows[..i]) == Pass(state, created, None)
    ensures var parsed := ParseTransaction(rows[i], items);
            && (parsed.Err? ==> ReplayPass(items, log, rows) == Pass(state, created, Some(parsed.error)))
            && (parsed == Ok(None) ==> ReplayPass(items, log, rows[..i + 1]) == Pass(state, created, None))
            && (parsed.Ok? && parsed.value.Some? ==>
                  ReplayPass(items, log, rows[..i + 1]) == Pass(state + [parsed.value.value], created + 1, None))
  {
    assert rows[..i + 1][..i] == rows[..i];
    var parsed := ParseTransaction(rows[i], items);
    assert ReplayPass(items, log, rows[..i + 1]) == ReplayStep(Pass(state, created, None), parsed);
    if parsed.Err? {
      ReplayPassStops(items, log, rows, i + 1);
    }
  }

  /** The transaction loop of step 3. */
  method ReplayTransactions(items: map<string, Item>, log: seq<Transaction>, rows: seq<Row>)
    returns (p: Pass<seq<Transaction>>)
    ensures p == ReplayPass(items, log, rows)
  {
    var state := log;
    var created := 0;
    var i := 0;
    while i < |rows|
      invariant 0 <= i <= |rows|
      invariant ReplayPass(items, log, rows[..i]) == Pass(state, created, None)
    {
      ReplayPassNext(items, log, rows, i, state, created);
      var parsed := ParseTransaction(rows[i], items);
      if parsed.Err? {
        return Pass(state, created, Some(parsed.error));
      }
      if parsed.value.Some? {
        state := state + [parsed.value.value];
        created := created + 1;
      }
      i := i + 1;
    }
    assert rows[..i] == rows;
    p := Pass(state, created, None);
  }

  /** The entry a parsed row records: none for a skipped row or an exception. */
  function Recorded(parsed: Result<Option<Transaction>, ImportError>): (r: seq<Transaction>)
    ensures |r| <= 1
  {
    if parsed.Ok? && parsed.value.Some? then [parsed.value.value] else []
  }

  /** The entries the rows describe, in order: one for each row that parses to an entry. */
  function Entries(items: map<string, Item>, rows: seq<Row>): (r: seq<Transaction>)
    ensures |r| <= |rows|
  {
    if rows == [] then []
    else Entries(items, rows[..|rows| - 1]) + Recorded(ParseTransaction(rows[|rows| - 1], items))
  }

  /** A step raises nothing exactly when the pass had not and the row parses; it then appends what the row records. */
  lemma ReplayStepRecords(p: Pass<seq<Transaction>>, parsed: Result<Option<Transaction>, ImportError>)
    ensures ReplayStep(p, parsed).error.None? <==> p.error.None? && parsed.Ok?
    ensures ReplayStep(p, parsed).error.None? ==>
              ReplayStep(p, parsed) == Pass(p.state + Recorded(parsed), p.count + |Recorded(parsed)|, None)
  {
    assert p.state + [] == p.state;
  }

  /** Every row of the transaction sheet parses without an exception. */
  predicate AllParse(items: map<string, Item>, rows: seq<Row>) {
    forall j :: 0 <= j < |rows| ==> Parses(items, rows[j])
  }

  predicate Parses(items: map<string, Item>, row: Row) {
    ParseTransaction(row, items).Ok?
  }

  lemma AllParseSnoc(items: map<string, Item>, rows: seq<Row>)
    requires rows != []
    ensures AllParse(items, rows) <==> AllParse(items, rows[..|rows| - 1]) && Parses(items, rows[|rows| - 1])
  {
    if AllParse(items, rows) {
      AllParsePrefix(items, rows, |rows| - 1);
    }
    if AllParse(items, rows[..|rows| - 1]) && Parses(items, rows[|rows| - 1]) {
      AllParseExtend(items, rows);
    }
  }

  lemma AllParsePrefix(items: map<string, Item>, rows: seq<Row>, k: nat)
    requires k <= |rows| && AllParse(items, rows)
    ensures AllParse(items, rows[..k])
  {
    forall j | 0 <= j < k ensures Parses(items, rows[..k][j]) {
      assert rows[..k][j] == rows[j];
    }
  }

  lemma AllParseExtend(items: map<string, Item>, rows: seq<Row>)
    requires rows != [] && AllParse(items, rows[..|rows| - 1]) && Parses(items, rows[|rows| - 1])
    ensures AllParse(items, rows)
  {
    forall j | 0 <= j < |rows| ensures Parses(items, rows[j]) {
      if j < |rows| - 1 {
        assert rows[j] == rows[..|rows| - 1][j];
      }
    }
  }

  /** The replay raises nothing exactly when every row parses. */
  lemma {:induction false} ReplayRaisesNothing(items: map<string, Item>, log: seq<Transaction>, rows: seq<Row>)
    ensures ReplayPass(items, log, rows).error.None? <==> AllParse(items, rows)
  {
    if rows != [] {
      var n := |rows| - 1;
      var init := rows[..n];
      var p := ReplayPass(items, log, init);
      var parsed := ParseTransaction(rows[n], items);
      assert ReplayPass(items, log, rows) == ReplayStep(p, parsed);
      ReplayStepRecords(p, parsed);
      ReplayRaisesNothing(items, log, init);
      AllParseSnoc(items, rows);
    }
  }

  /** A replay that raised nothing has appended the entries the rows describe, in order, and counted each of them. */
  lemma {:induction false} ReplayRecordsEntries(items: map<string, Item>, log: seq<Transaction>, rows: seq<Row>)
    ensures var p := ReplayPass(items, log, rows);
            p.error.None? ==> p.state == log + Entries(items, rows) && p.count == |Entries(items, rows)|
  {
    if rows != [] {
      var n := |rows| - 1;
      var init := rows[..n];
      var p := ReplayPass(items, log, init);
      var parsed := ParseTransaction(rows[n], items);
      assert ReplayPass(items, log, rows) == ReplayStep(p, parsed);
      ReplayStepRecords(p, parsed);
      ReplayRecordsEntries(items, log, init);
      if ReplayPass(items, log, rows).error.None? {
        var e := Entries(items, init);
        assert Entries(items, rows) == e + Recorded(parsed);
        assert log + (e + Recorded(parsed)) == (log + e) + Recorded(parsed);
      }
    }
  }

  /**
   * The replay stopped at row `k`: the first row that does not parse, whose exception it
   * raised after appending the entries the rows before it describe.
   */
  predicate StoppedAt(items: map<string, Item>, log: seq<Transaction>, rows: seq<Row>, k: nat) {
    && k < |rows| && ParseTransaction(rows[k], items).Err?
    && (forall j :: 0 <= j < k ==> ParseTransaction(rows[j], items).Ok?)
    && ReplayPass(items, log, rows)
       == Pass(log + Entries(items, rows[..k]), |Entries(items, rows[..k])|, Some(ParseTransaction(rows[k], items).error))
  }

  lemma StoppedAtExtends(items: map<string, Item>, log: seq<Transaction>, rows: seq<Row>, k: nat)
    requires rows != [] && StoppedAt(items, log, rows[..|rows| - 1], k)
    requires ReplayPass(items, log, rows) == ReplayPass(items, log, rows[..|rows| - 1])
    ensures StoppedAt(items, log, rows, k)
  {
    var init := rows[..|rows| - 1];
    assert init[..k] == rows[..k] && init[k] == rows[k];
    assert forall j :: 0 <= j < k ==> init[j] == rows[j];
  }

  lemma StoppedAtLast(items: map<string, Item>, log: seq<Transaction>, rows: seq<Row>)
    requires rows != [] && ParseTransaction(rows[|rows| - 1], items).Err?
    requires ReplayPass(items, log, rows[..|rows| - 1]).error.None?
    requires ReplayPass(items, log, rows)
             == ReplayPass(items, log, rows[..|rows| - 1]).(error := Some(ParseTransaction(rows[|rows| - 1], items).error))
    ensures StoppedAt(items, log, rows, |rows| - 1)
  {
    var n := |rows| - 1;
    ReplayRecordsEntries(items, log, rows[..n]);
    ReplayRaisesNothing(items, log, rows[..n]);
    assert forall j :: 0 <= j < n ==> rows[..n][j] == rows[j];
  }

  /** A replay that raised an exception stopped at the first row that does not parse. */
  lemma {:induction false} ReplayStopsAtFirstError(items: map<string, Item>, log: seq<Transaction>, rows: seq<Row>)
    requires ReplayPass(items, log, rows).error.Some?
    ensures exists k :: StoppedAt(items, log, rows, k)
  {
    var n := |rows| - 1;
    var init := rows[..n];
    var p := ReplayPass(items, log, init);
    var parsed := ParseTransaction(rows[n], items);
    assert ReplayPass(items, log, rows) == ReplayStep(p, parsed);
    ReplayStepRecords(p, parsed);
    if p.error.Some? {
      ReplayStopsAtFirstError(items, log, init);
      var k :| StoppedAt(items, log, init, k);
      StoppedAtExtends(items, log, rows, k);
    } else {
      StoppedAtLast(items, log, rows);
    }
  }

  /** Every entry after the first `from` refers to a known item and is not positive unless it is a receipt. */
  predicate SoundFrom(s: seq<Transaction>, from: nat, items: map<string, Item>) {
    forall i :: from <= i < |s| ==> s[i].item in items && (s[i].kind != Receipt ==> s[i].qty <= 0)
  }

  lemma ReplayStepAppends(p: Pass<seq<Transaction>>, from: nat, row: Row, items: map<string, Item>)
    requires SoundFrom(p.state, from, items)
    ensures SoundFrom(ReplayStep(p, ParseTransaction(row, items)).state, from, items)
  {
    var q := ReplayStep(p, ParseTransaction(row, items));
    forall i | from <= i < |q.state| ensures q.state[i].item in items && (q.state[i].kind != Receipt ==> q.state[i].qty <= 0) {
      if i < |p.state| {
        assert q.state[i] == p.state[i];
      }
    }
  }

  /**
   * The replay only appends entries that refer to a known item and, unless they are
   * receipts, carry a quantity of at most zero.
   */
  lemma {:induction false} ReplayAppends(items: map<string, Item>, log: seq<Transaction>, rows: seq<Row>)
    ensures SoundFrom(ReplayPass(items, log, rows).state, |log|, items)
  {
    if rows != [] {
      ReplayAppends(items, log, rows[..|rows| - 1]);
      ReplayStepAppends(ReplayPass(items, log, rows[..|rows| - 1]), |log|, rows[|rows| - 1], items);
    }
  }

  /** What the replay appends does not depend on the log it appends to. */
  lemma {:induction false} ReplayPassShift(items: map<string, Item>, log: seq<Transaction>, rows: seq<Row>)
    ensures var p := ReplayPass(items, log, rows);
            var q := ReplayPass(items, [], rows);
            p.state == log + q.state && p.count == q.count && p.error == q.error
  {
    if rows != [] {
      ReplayPassShift(items, log, rows[..|rows| - 1]);
      var q := ReplayPass(items, [], rows[..|rows| - 1]);
      var r := ParseTransaction(rows[|rows| - 1], items);
      if q.error.None? && r.Ok? && r.value.Some? {
        assert log + q.state + [r.value.value] == log + (q.state + [r.value.value]);
      }
    }
  }

  /**
   * Every balance moves by the net movement of the appended entries, and a replay that
   * adds no receipt never raises a balance.
   */
  lemma ReplayMovesBalances(items: map<string, Item>, log: seq<Transaction>, rows: seq<Row>, item: Item)
    ensures var p := ReplayPass(items, log, rows);
            && CurrentBalance(item, p.state) == CurrentBalance(item, log) + Movement(p.state[|log|..], item.materialNo)
            && ((forall i :: |log| <= i < |p.state| ==> p.state[i].kind != Receipt) ==>
                  CurrentBalance(item, p.state) <= CurrentBalance(item, log))
  {
    var p := ReplayPass(items, log, rows);
    var added := p.state[|log|..];
    assert p.state == log + added;
    MovementAppend(log, added, item.materialNo);
    if forall i :: |log| <= i < |p.state| ==> p.state[i].kind != Receipt {
      ReplayAppends(items, log, rows);
      IssuesNonPositive(p.state, |log|, items);
      MovementSign(added, item.materialNo);
    }
  }

  /** Past `from`, a sound log without receipts holds only entries of at most zero. */
  lemma IssuesNonPositive(s: seq<Transaction>, from: nat, items: map<string, Item>)
    requires from <= |s| && SoundFrom(s, from, items)
    requires forall i :: from <= i < |s| ==> s[i].kind != Receipt
    ensures forall i :: 0 <= i < |s[from..]| ==> s[from..][i].qty <= 0
  {
    forall i | 0 <= i < |s[from..]| ensures s[from..][i].qty <= 0 {
      assert s[from..][i] == s[from + i];
    }
  }

  /**
   * The replay as the source writes it: the entry is created with the keyword
   * `quantity`, which is not a field of the transaction model, so the first row that
   * would record an entry raises TypeError instead.
   */
  function ReplayAsWrittenStep(p: Pass<seq<Transaction>>, parsed: Result<Option<Transaction>, ImportError>)
    : Pass<seq<Transaction>>
  {
    if p.error.Some? then p
    else match parsed
      case Err(e) => p.(error := Some(e))
      case Ok(None) => p
      case Ok(Some(_)) => p.(error := Some(TypeError))
  }

  function ReplayAsWritten(items: map<string, Item>, log: seq<Transaction>, rows: seq<Row>): (p: Pass<seq<Transaction>>)
    ensures p.state == log && p.count == 0
  {
    if rows == [] then Pass(log, 0, None)
    else ReplayAsWrittenStep(ReplayAsWritten(items, log, rows[..|rows| - 1]), ParseTransaction(rows[|rows| - 1], items))
  }

  /** One step as written against one step as intended, from a state where nothing was recorded. */
  lemma AsWrittenStep(p: Pass<seq<Transaction>>, q: Pass<seq<Transaction>>, parsed: Result<Option<Transaction>, ImportError>)
    requires p.count == 0
    requires p.error.None? ==> q == p
    requires p.error.Some? && p.error != Some(TypeError) ==> q.error == p.error
    requires q.count > 0 ==> p.error == Some(TypeError)
    ensures var p' := ReplayAsWrittenStep(p, parsed);
            var q' := ReplayStep(q, parsed);
            && p'.state == p.state && p'.count == 0
            && (p'.error.None? ==> q' == p')
            && (p'.error.Some? && p'.error != Some(TypeError) ==> q'.error == p'.error)
            && (q'.count > 0 ==> p'.error == Some(TypeError))
  {
  }

  /** As written, the replay never records an entry, and it fails wherever the intended replay records one. */
  lemma {:induction false} AsWrittenRecordsNothing(items: map<string, Item>, log: seq<Transaction>, rows: seq<Row>)
    ensures var p := ReplayAsWritten(items, log, rows);
            p.state == log && p.count == 0
    ensures ReplayAsWritten(items, log, rows).error.None? ==> ReplayPass(items, log, rows) == Pass(log, 0, None)
    ensures var e := ReplayAsWritten(items, log, rows).error;
            e.Some? && e != Some(TypeError) ==> ReplayPass(items, log, rows).error == e
    ensures ReplayPass(items, log, rows).count > 0 ==> ReplayAsWritten(items, log, rows).error == Some(TypeError)
  {
    if rows != [] {
      var init := rows[..|rows| - 1];
      AsWrittenRecordsNothing(items, log, init);
      AsWrittenStep(ReplayAsWritten(items, log, init), ReplayPass(items, log, init), ParseTransaction(rows[|rows| - 1], items));
    }
  }

  /** A dated row for a known material with only a quantity besides: an issue of that quantity. */
  lemma ParseBareIssue(row: Row, items: map<string, Item>)
    requires |row| > 7 && row[0].DateTime? && row[3].Text? && row[3].text != "" && Strip(row[3].text) in items
    requires !Truthy(row[1]) && !Truthy(row[2]) && !Truthy(row[7]) && row[6].Number?
    ensures ParseTransaction(row, items)
            == Ok(Some(Transaction(Strip(row[3].text), row[0].d, "", Issue, -(Abs(row[6].n) as int), "")))
  {
  }

  /** The entry the intended replay makes of an issue row of 20 for material 100126. */
  lemma ExampleIssueEntry(row: Row, items: map<string, Item>)
    requires items == map["100126" := Item(0, "100126", "Administration Folders", "PCS", 50, 50, 20, 10)]
    requires row == [DateTime(Date(2025, 3, 1)), Empty, Empty, Text("100126"), Empty, Empty, Number(20), Empty]
    ensures ParseTransaction(row, items) == Ok(Some(Transaction("100126", Date(2025, 3, 1), "", Issue, -20, "")))
  {
    var m := "100126";
    assert forall i :: 0 <= i < |m| ==> !IsSpace(m[i]);
    StripNoSpace(m);
    assert row[3].text == m;
    assert Strip(row[3].text) in items;
    assert !Truthy(row[1]) && !Truthy(row[2]) && !Truthy(row[7]);
    ParseBareIssue(row, items);
    assert -(Abs(row[6].n) as int) == -20;
  }

  /** An issue row for a known item: recorded by the intended replay, an exception as written. */
  lemma AsWrittenFailsOnAnIssue()
    ensures var items := map["100126" := Item(0, "100126", "Administration Folders", "PCS", 50, 50, 20, 10)];
            var row := [DateTime(Date(2025, 3, 1)), Empty, Empty, Text("100126"), Empty, Empty, Number(20), Empty];
            && ReplayPass(items, [], [row]).count == 1
            && ReplayAsWritten(items, [], [row]).error == Some(TypeError)
  {
    var items := map["100126" := Item(0, "100126", "Administration Folders", "PCS", 50, 50, 20, 10)];
    var row := [DateTime(Date(2025, 3, 1)), Empty, Empty, Text("100126"), Empty, Empty, Number(20), Empty];
    var rows: seq<Row> := [row];
    assert rows[..0] == [] && rows[0] == row;
    ExampleIssueEntry(row, items);
  }

  // ---------------------------------------------------------------- the whole import

  /** Items are read from row 4 on, transactions from row 3 on, wherever the header was found. */
  const ItemDataStart: nat := 3
  const TransDataStart: nat := 2

  /** `iter_rows(min_row=start + 1)`: the rows from `start` on, none if the sheet is shorter. */
  function DataRows(sheet: seq<Row>, start: nat): (r: seq<Row>)
    ensures |r| == if start <= |sheet| then |sheet| - start else 0
    ensures forall i :: 0 <= i < |r| ==> r[i] == sheet[start + i]
  {
    if start <= |sheet| then sheet[start..] else []
  }

  /** What one run leaves behind: the tables, `items_created`, `trans_created`, and the exception that stopped it. */
  datatype Report = Report(db: Db, itemsCreated: nat, transCreated: nat, error: Option<ImportError>)

  /** The whole script: stores, header, column map, item pass, transaction replay. */
  function ImportSpec(db: Db, itemSheet: seq<Row>, transSheet: seq<Row>): (r: Report)
    ensures r.db.stores == StoresPass(db.stores, StoreNames).state
    ensures StoresPass(db.stores, StoreNames).error.Some? ==>
              r == Report(db.(stores := r.db.stores), 0, 0, StoresPass(db.stores, StoreNames).error)
  {
    var sp := StoresPass(db.stores, StoreNames);
    var db1 := db.(stores := sp.state);
    if sp.error.Some? then Report(db1, 0, 0, sp.error)
    else match HeaderSearch(itemSheet, 0)
      case Err(e) => Report(db1, 0, 0, Some(e))
      case Ok(headers) =>
        match ColumnMap(headers)
        case Err(e) => Report(db1, 0, 0, Some(e))
        case Ok(cols) =>
          var ip := ItemPass(db.items, DataRows(itemSheet, ItemDataStart), cols, db1.stores);
          var db2 := db1.(items := ip.state);
          if ip.error.Some? then Report(db2, ip.count, 0, ip.error)
          else
            var rp := ReplayPass(ip.state, db.log, DataRows(transSheet, TransDataStart));
            Report(db2.(log := rp.state), ip.count, rp.count, rp.error)
  }

  /** The script as a sequence of steps. */
  method RunImport(db: Db, itemSheet: seq<Row>, transSheet: seq<Row>) returns (r: Report)
    ensures r == ImportSpec(db, itemSheet, transSheet)
  {
    var sp := EnsureStores(db.stores);
    var db1 := db.(stores := sp.state);
    if sp.error.Some? {
      return Report(db1, 0, 0, sp.error);
    }
    var header := FindHeader(itemSheet);
    if header.Err? {
      return Report(db1, 0, 0, Some(header.error));
    }
    var cols := ColumnMap(header.value);
    if cols.Err? {
      return Report(db1, 0, 0, Some(cols.error));
    }
    var ip := ImportItems(db.items, DataRows(itemSheet, ItemDataStart), cols.value, db1.stores);
    var db2 := db1.(items := ip.state);
    if ip.error.Some? {
      return Report(db2, ip.count, 0, ip.error);
    }
    var rp := ReplayTransactions(ip.state, db.log, DataRows(transSheet, TransDataStart));
    r := Report(db2.(log := rp.state), ip.count, rp.count, rp.error);
  }

  /**
   * An import that raised nothing has appended to the ledger exactly the entries the
   * transaction rows describe, against the items the item pass left.
   */
  lemma ImportAppendsEntries(db: Db, itemSheet: seq<Row>, transSheet: seq<Row>)
    ensures var r := ImportSpec(db, itemSheet, transSheet);
            r.error.None? ==>
              && r.db.log == db.log + Entries(r.db.items, DataRows(transSheet, TransDataStart))
              && r.transCreated == |Entries(r.db.items, DataRows(transSheet, TransDataStart))|
  {
    var sp := StoresPass(db.stores, StoreNames);
    var hs := HeaderSearch(itemSheet, 0);
    if sp.error.None? && hs.Ok? && ColumnMap(hs.value).Ok? {
      var ip := ItemPass(db.items, DataRows(itemSheet, ItemDataStart), ColumnMap(hs.value).value, sp.state);
      ReplayRecordsEntries(ip.state, db.log, DataRows(transSheet, TransDataStart));
    }
  }

  /** Without a header row, or without one of the seven columns, no item and no entry is written. */
  lemma ImportWithoutHeader(db: Db, itemSheet: seq<Row>, transSheet: seq<Row>)
    requires HeaderSearch(itemSheet, 0).Err? || ColumnMap(HeaderSearch(itemSheet, 0).value).Err?
    ensures var r := ImportSpec(db, itemSheet, transSheet);
            && r.db.items == db.items && r.db.log == db.log
            && r.itemsCreated == 0 && r.transCreated == 0
            && r.error.Some?
  {
  }

  /**
   * Whatever happens, an import keeps every store, item key and ledger entry it found;
   * `items_created` counts the new material numbers, `trans_created` the appended
   * entries; every item stays under its own material number; every new entry refers to
   * an item, and only receipts carry a positive quantity.
   */
  lemma ImportOutcome(db: Db, itemSheet: seq<Row>, transSheet: seq<Row>)
    requires Keyed(db.items)
    ensures var r := ImportSpec(db, itemSheet, transSheet);
            && db.stores <= r.db.stores
            && db.items.Keys <= r.db.items.Keys
            && r.itemsCreated == |r.db.items.Keys - db.items.Keys|
            && Keyed(r.db.items)
            && db.log <= r.db.log
            && |r.db.log| == |db.log| + r.transCreated
            && SoundFrom(r.db.log, |db.log|, r.db.items)
  {
    var r := ImportSpec(db, itemSheet, transSheet);
    var sp := StoresPass(db.stores, StoreNames);
    StoresPassGrows(db.stores, StoreNames);
    var hs := HeaderSearch(itemSheet, 0);
    if sp.error.None? && hs.Ok? && ColumnMap(hs.value).Ok? {
      var cols := ColumnMap(hs.value).value;
      var rows := DataRows(itemSheet, ItemDataStart);
      var trows := DataRows(transSheet, TransDataStart);
      ItemPassCount(db.items, rows, cols, sp.state);
      ItemPassKeyed(db.items, rows, cols, sp.state);
      var ip := ItemPass(db.items, rows, cols, sp.state);
      var rp := ReplayPass(ip.state, db.log, trows);
      ReplayAppends(ip.state, db.log, trows);
      if ip.error.Some? {
        assert r == Report(db.(stores := sp.state, items := ip.state), ip.count, 0, ip.error);
      } else {
        assert r == Report(db.(stores := sp.state, items := ip.state, log := rp.state), ip.count, rp.count, rp.error);
      }
    } else {
      assert r == Report(db.(stores := sp.state), 0, 0, r.error);
    }
  }

  /**
   * Importing the same workbook twice: the second run finds every store, creates no
   * item and leaves the items as the first left them, but it appends the same entries
   * to the ledger a second time.
   */
  lemma ReimportDuplicatesLedger(db: Db, itemSheet: seq<Row>, transSheet: seq<Row>)
    requires ImportSpec(db, itemSheet, transSheet).error.None?
    ensures var r1 := ImportSpec(db, itemSheet, transSheet);
            var r2 := ImportSpec(r1.db, itemSheet, transSheet);
            && r2.db.stores == r1.db.stores
            && r2.db.items == r1.db.items
            && r2.itemsCreated == 0
            && r2.transCreated == r1.transCreated
            && r2.error.None?
            && r2.db.log == r1.db.log + r1.db.log[|db.log|..]
  {
    var r1 := ImportSpec(db, itemSheet, transSheet);
    var sp := StoresPass(db.stores, StoreNames);
    StoresPassOutcome(db.stores, StoreNames);
    StoresPassOutcome(sp.state, StoreNames);
    StoresPassKeeps(sp.state, StoreNames);
    var cols := ColumnMap(HeaderSearch(itemSheet, 0).value).value;
    var rows := DataRows(itemSheet, ItemDataStart);
    var trows := DataRows(transSheet, TransDataStart);
    ItemPassIdempotent(db.items, rows, cols, sp.state);
    var items := r1.db.items;
    ReplayPassShift(items, db.log, trows);
    ReplayPassShift(items, r1.db.log, trows);
    assert r1.db.log[|db.log|..] == ReplayPass(items, [], trows).state;
  }

  /** When every name already belongs to exactly one store, step 1 changes nothing. */
  lemma {:induction false} StoresPassKeeps(stores: seq<Store>, names: seq<string>)
    requires forall n :: n in names ==> |StoreIdsNamed(stores, n)| == 1
    ensures StoresPass(stores, names) == Pass(stores, 0, None)
  {
    if names != [] {
      StoresPassKeeps(stores, names[..|names| - 1]);
      assert names[|names| - 1] in names;
    }
  }
}
