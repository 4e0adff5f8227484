/**
 * The request handlers of core/views.py, without rendering: the home page summary,
 * the stock list with its store filter, the transaction entry form and its POST
 * handler, and the item selection and status rule of the spreadsheet export.
 */
module Views {
  import opened Wrappers
  import opened Strings
  import opened Seqs
  import opened Models

  /** How a request fails: `int()` rejects the text (an unhandled ValueError), or a 404. */
  datatype ViewError = InvalidNumber | ItemNotFound

  /** Truthiness of an optional query or form value: absent and empty are both false. */
  predicate Given(param: Option<string>) {
    param.Some? && param.value != ""
  }

  // ---------------------------------------------------------------- home

  /** The sort key of the urgent list: ascending current balance. */
  function ByBalance(log: seq<Transaction>): (Item, Item) -> bool {
    (a: Item, b: Item) => CurrentBalance(a, log) <= CurrentBalance(b, log)
  }

  lemma ByBalanceIsTotalPreorder(log: seq<Transaction>)
    ensures TotalPreorder(ByBalance(log))
  {
  }

  /** `[item for item in all_items if item.needs_reorder()]`. */
  function ReorderItems(all: seq<Item>, log: seq<Transaction>): (r: seq<Item>)
    ensures forall i :: 0 <= i < |r| ==> NeedsReorder(r[i], log)
    ensures forall x :: multiset(r)[x] == if NeedsReorder(x, log) then multiset(all)[x] else 0
  {
    Filter(all, (x: Item) => NeedsReorder(x, log))
  }

  const UrgentLimit: nat := 20

  /** `sorted(reorder_items, key=current_balance)[:20]`. */
  function Urgent(reorder: seq<Item>, log: seq<Transaction>): (r: seq<Item>)
    ensures |r| == if |reorder| < UrgentLimit then |reorder| else UrgentLimit
    ensures multiset(r) <= multiset(reorder)
  {
    var sorted := SortBy(reorder, ByBalance(log));
    var k := if |sorted| < UrgentLimit then |sorted| else UrgentLimit;
    assert sorted == sorted[..k] + sorted[k..];
    sorted[..k]
  }

  /**
   * The urgent list is sorted by ascending balance and holds the lowest balances:
   * whatever was cut off has a balance no lower than any listed one, and nothing is
   * cut off when there are at most 20 candidates.
   */
  lemma UrgentAreLowest(reorder: seq<Item>, log: seq<Transaction>)
    ensures SortedBy(Urgent(reorder, log), ByBalance(log))
    ensures forall x, y :: x in Urgent(reorder, log) && y in multiset(reorder) - multiset(Urgent(reorder, log))
                           ==> CurrentBalance(x, log) <= CurrentBalance(y, log)
    ensures |reorder| <= UrgentLimit ==> multiset(Urgent(reorder, log)) == multiset(reorder)
  {
    var le := ByBalance(log);
    var sorted := SortBy(reorder, le);
    ByBalanceIsTotalPreorder(log);
    SortBySorted(reorder, le);
    var k := if |sorted| < UrgentLimit then |sorted| else UrgentLimit;
    var r := Urgent(reorder, log);
    assert r == sorted[..k];
    UrgentSortedPart(sorted, k, le);
    LowestPart(sorted, k, le, reorder);
  }

  lemma UrgentSortedPart(sorted: seq<Item>, k: nat, le: (Item, Item) -> bool)
    requires SortedBy(sorted, le) && k <= |sorted|
    ensures SortedBy(sorted[..k], le)
  {
  }

  lemma LowestPart(sorted: seq<Item>, k: nat, le: (Item, Item) -> bool, s: seq<Item>)
    requires SortedBy(sorted, le) && k <= |sorted| && multiset(sorted) == multiset(s)
    ensures forall x, y :: x in sorted[..k] && y in multiset(s) - multiset(sorted[..k]) ==> le(x, y)
    ensures k == |sorted| ==> multiset(sorted[..k]) == multiset(s)
  {
    SortedPrefixIsLowest(sorted, k, le);
    assert multiset(s) - multiset(sorted[..k]) == multiset(sorted[k..]);
    assert k == |sorted| ==> sorted[..k] == sorted;
  }

  datatype HomeContext = HomeContext(totalItems: nat, lowStockCount: nat, reorderCount: nat, reorderItems: seq<Item>)

  /**
   * The home page: item count, the two reorder counts, and the at most 20 reorder
   * items with the lowest balances, lowest first (UrgentAreLowest).
   */
  function Home(all: seq<Item>, log: seq<Transaction>): (c: HomeContext)
    ensures c.totalItems == |all|
    ensures c.reorderCount == |ReorderItems(all, log)|
    ensures c.lowStockCount == c.reorderCount
    ensures |c.reorderItems| == if c.reorderCount < UrgentLimit then c.reorderCount else UrgentLimit
    ensures forall x :: x in c.reorderItems ==> NeedsReorder(x, log) && x in all
    ensures multiset(c.reorderItems) <= multiset(ReorderItems(all, log))
  {
    var reorder := ReorderItems(all, log);
    var low := Filter(all, (x: Item) => CurrentBalance(x, log) <= x.reorderLevel);
    FilterEquivalent(all, (x: Item) => CurrentBalance(x, log) <= x.reorderLevel, (x: Item) => NeedsReorder(x, log));
    var urgent := Urgent(reorder, log);
    assert forall x :: x in urgent ==> multiset(reorder)[x] > 0;
    HomeContext(|all|, |low|, |reorder|, urgent)
  }

  /** The home page's urgent list is the `Urgent` selection of the reorder items. */
  lemma HomeUrgentAreLowest(all: seq<Item>, log: seq<Transaction>)
    ensures var c := Home(all, log);
            var reorder := ReorderItems(all, log);
            && SortedBy(c.reorderItems, ByBalance(log))
            && (forall x, y :: x in c.reorderItems && y in multiset(reorder) - multiset(c.reorderItems)
                               ==> CurrentBalance(x, log) <= CurrentBalance(y, log))
            && (|reorder| <= UrgentLimit ==> multiset(c.reorderItems) == multiset(reorder))
  {
    UrgentAreLowest(ReorderItems(all, log), log);
  }

  // ---------------------------------------------------------------- stock list

  /** `order_by('material_no')`. */
  function ByMaterial(): (Item, Item) -> bool {
    (a: Item, b: Item) => StrLe(a.materialNo, b.materialNo)
  }

  lemma ByMaterialIsTotalPreorder()
    ensures TotalPreorder(ByMaterial())
  {
    forall a: Item, b: Item ensures ByMaterial()(a, b) || ByMaterial()(b, a) {
      StrLeTotal(a.materialNo, b.materialNo);
    }
    forall a: Item, b: Item, c: Item | ByMaterial()(a, b) && ByMaterial()(b, c)
      ensures ByMaterial()(a, c)
    {
      StrLeTransitive(a.materialNo, b.materialNo, c.materialNo);
    }
  }

  /** A query result ordered by material number: the same items, in ascending order. */
  function OrderByMaterial(items: seq<Item>): (r: seq<Item>)
    ensures multiset(r) == multiset(items)
    ensures forall i, j :: 0 <= i < j < |r| ==> StrLe(r[i].materialNo, r[j].materialNo)
  {
    ByMaterialIsTotalPreorder();
    SortBySorted(items, ByMaterial());
    SortBy(items, ByMaterial())
  }

  /** What the page shows as the selected store: `selected_store_id if selected_store_id else None`. */
  datatype Selected = NoSelection | SelectedId(id: int) | SelectedText(raw: string)

  datatype StockListContext = StockListContext(items: seq<Item>, selected: Selected)

  function InStore(all: seq<Item>, id: int): (r: seq<Item>)
    ensures forall i :: 0 <= i < |r| ==> r[i].store == id
    ensures forall x :: multiset(r)[x] == if x.store == id then multiset(all)[x] else 0
  {
    Filter(all, (x: Item) => x.store == id)
  }

  /**
   * `stock_list`: a `store` parameter that `int()` accepts selects that store's items;
   * a missing, empty or unparsable one falls back to all items; either way ordered by
   * material number.
   */
  function StockList(all: seq<Item>, storeParam: Option<string>): (c: StockListContext)
    ensures forall i, j :: 0 <= i < j < |c.items| ==> StrLe(c.items[i].materialNo, c.items[j].materialNo)
    ensures Given(storeParam) && ParseInt(storeParam.value).Some? ==>
              multiset(c.items) == multiset(InStore(all, ParseInt(storeParam.value).value))
    ensures !(Given(storeParam) && ParseInt(storeParam.value).Some?) ==> multiset(c.items) == multiset(all)
    ensures c.selected == NoSelection <==>
              !Given(storeParam) || ParseInt(storeParam.value) == Some(0)
  {
    if Given(storeParam) then
      match ParseInt(storeParam.value)
      case Some(id) => StockListContext(OrderByMaterial(InStore(all, id)), if id != 0 then SelectedId(id) else NoSelection)
      case None => StockListContext(OrderByMaterial(all), SelectedText(storeParam.value))
    else StockListContext(OrderByMaterial(all), NoSelection)
  }

  /** The store filter keeps exactly the items of that store. */
  lemma StockListShowsOnlyThatStore(all: seq<Item>, s: string, x: Item)
    requires s != "" && ParseInt(s).Some?
    ensures var c := StockList(all, Some(s));
            && (forall i :: 0 <= i < |c.items| ==> c.items[i].store == ParseInt(s).value)
            && (x in all && x.store == ParseInt(s).value ==> x in c.items)
  {
    var c := StockList(all, Some(s));
    var id := ParseInt(s).value;
    forall i | 0 <= i < |c.items| ensures c.items[i].store == id {
      assert multiset(c.items)[c.items[i]] > 0;
    }
    if x in all && x.store == id {
      assert multiset(c.items)[x] > 0;
    }
  }

  // ---------------------------------------------------------------- add_transaction

  /** The transaction form lists all items ordered by material number. */
  function AddTransactionForm(all: seq<Item>): (r: seq<Item>)
    ensures multiset(r) == multiset(all)
    ensures forall i, j :: 0 <= i < j < |r| ==> StrLe(r[i].materialNo, r[j].materialNo)
  {
    OrderByMaterial(all)
  }

  /** The signed quantity the view stores: negated for an Issue, as entered for any other type. */
  function EntryQuantity(transType: string, quantity: int): (r: int)
    ensures transType == Issue ==> r == -quantity
    ensures transType != Issue ==> r == quantity
    ensures Abs(r) == Abs(quantity)
  {
    if transType == Issue then -quantity else quantity
  }

  lemma EntryQuantityMagnitude(transType: string, n: int)
    ensures n >= 0 && transType == Receipt ==> EntryQuantity(transType, n) == n
    ensures n >= 0 && transType == Issue ==> EntryQuantity(transType, n) == -n
    ensures Abs(EntryQuantity(transType, n)) == Abs(n)
  {
  }

  /** A recorded transaction: the new tables, the entry appended, and the success message. */
  datatype Added = Added(db: Db, entry: Transaction, reported: nat, message: string)

  /**
   * The POST branch of `add_transaction`: parse the quantity, look the item up, negate the
   * quantity for an Issue, append one transaction dated `today`, and report `abs(quantity)`.
   */
  method AddTransaction(db: Db, itemKey: string, transType: string, quantityText: string,
                        department: string, docNo: string, today: Date)
    returns (r: Result<Added, ViewError>)
    ensures ParseInt(quantityText).None? ==> r == Err(InvalidNumber)
    ensures ParseInt(quantityText).Some? && itemKey !in db.items ==> r == Err(ItemNotFound)
    ensures ParseInt(quantityText).Some? && itemKey in db.items ==> r.Ok?
    ensures r.Ok? ==>
              var n := ParseInt(quantityText).value;
              var item := db.items[itemKey];
              var q := EntryQuantity(transType, n);
              && r.value.db == db.(log := db.log + [r.value.entry])
              && r.value.entry == Transaction(item.materialNo, today, docNo, transType, q, department)
              && CurrentBalance(item, r.value.db.log) == CurrentBalance(item, db.log) + q
              && (n >= 0 && transType == Receipt ==> CurrentBalance(item, r.value.db.log) == CurrentBalance(item, db.log) + n)
              && (n >= 0 && transType == Issue ==> CurrentBalance(item, r.value.db.log) == CurrentBalance(item, db.log) - n)
              && (forall other: Item :: other.materialNo != item.materialNo ==>
                    CurrentBalance(other, r.value.db.log) == CurrentBalance(other, db.log))
              && r.value.reported == Abs(n)
              && r.value.message == IntToDecimal(r.value.reported) + " " + item.unit + " of " + item.description
                                    + " recorded as " + Lower(transType) + "."
  {
    var parsed := ParseInt(quantityText);
    if parsed.None? {
      return Err(InvalidNumber);
    }
    var quantity := parsed.value;
    if itemKey !in db.items {
      return Err(ItemNotFound);
    }
    var item := db.items[itemKey];
    if transType == Issue {
      quantity := -quantity;
    }
    var entry := Transaction(item.materialNo, today, docNo, transType, quantity, department);
    var log := db.log + [entry];
    AppendMovesBalance(item, db.log, entry);
    forall other: Item | other.materialNo != item.materialNo
      ensures CurrentBalance(other, log) == CurrentBalance(other, db.log)
    {
      AppendMovesBalance(other, db.log, entry);
    }
    var reported := Abs(quantity);
    var message := IntToDecimal(reported) + " " + item.unit + " of " + item.description
                   + " recorded as " + Lower(transType) + ".";
    return Ok(Added(db.(log := log), entry, reported, message));
  }

  // ---------------------------------------------------------------- export_stock_excel

  /** The items exported: those of the `store` parameter if one is given, else all. */
  function ExportItems(all: seq<Item>, storeParam: Option<string>): (r: Result<seq<Item>, ViewError>)
    ensures !Given(storeParam) ==> r == Ok(all)
    ensures Given(storeParam) && ParseInt(storeParam.value).None? ==> r == Err(InvalidNumber)
    ensures Given(storeParam) && ParseInt(storeParam.value).Some? ==>
              r == Ok(InStore(all, ParseInt(storeParam.value).value))
  {
    if Given(storeParam) then
      match ParseInt(storeParam.value)
      case Some(id) => Ok(InStore(all, id))
      case None => Err(InvalidNumber)
    else Ok(all)
  }

  /** The "Status" cell of an exported row. */
  function ExportStatus(item: Item, log: seq<Transaction>): (r: string)
    ensures r == "OUT OF STOCK" <==> CurrentBalance(item, log) <= 0
    ensures r == "REORDER" <==> 0 < CurrentBalance(item, log) <= item.reorderLevel
    ensures r == "AVAILABLE" <==> 0 < CurrentBalance(item, log) && item.reorderLevel < CurrentBalance(item, log)
  {
    if CurrentBalance(item, log) <= 0 then "OUT OF STOCK"
    else if NeedsReorder(item, log) then "REORDER"
    else "AVAILABLE"
  }
}
