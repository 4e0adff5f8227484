/**
 * The item admin screen of core/admin.py: the balance and status columns of the item
 * list, and the bulk actions that move the selected items to a named store.
 */
module Admin {
  import opened Wrappers
  import opened Models

  const OutOfStock: string := "OUT OF STOCK"
  const Reorder: string := "REORDER"
  const Available: string := "AVAILABLE"

  /** The "Current Balance" column shows the item's current balance. */
  function CurrentBalanceDef(item: Item, log: seq<Transaction>): (r: int)
    ensures r == CurrentBalance(item, log)
    ensures log == [] ==> r == item.openingBinBalance
  {
    CurrentBalance(item, log)
  }

  /**
   * The "Status" column. A balance at or below zero is out of stock even when the
   * reorder threshold is also reached; otherwise the threshold decides.
   */
  function ReorderStatus(item: Item, log: seq<Transaction>): (r: string)
    ensures r == OutOfStock || r == Reorder || r == Available
    ensures r == OutOfStock <==> CurrentBalance(item, log) <= 0
    ensures r == Reorder <==> 0 < CurrentBalance(item, log) <= item.reorderLevel
    ensures r == Available <==> 0 < CurrentBalance(item, log) && item.reorderLevel < CurrentBalance(item, log)
    ensures NeedsReorder(item, log) ==> r != Available
  {
    if CurrentBalance(item, log) <= 0 then OutOfStock
    else if NeedsReorder(item, log) then Reorder
    else Available
  }

  /** The new item table and the count `queryset.update` reports. */
  datatype Assigned = Assigned(db: Db, updated: nat)

  /**
   * `queryset.update(store=Store.objects.get(name=storeName))` for the selected material
   * numbers: the lookup fails as `get` does; otherwise every selected item is moved to
   * that store, every other item and table is left alone, and the count of selected
   * items is reported.
   */
  function AssignSelected(db: Db, selected: set<string>, storeName: string): (r: Result<Assigned, LookupError>)
    ensures GetStoreNamed(db.stores, storeName).Err? ==> r == Err(GetStoreNamed(db.stores, storeName).error)
    ensures GetStoreNamed(db.stores, storeName).Ok? ==> r.Ok?
    ensures r.Ok? ==>
              var id := GetStoreNamed(db.stores, storeName).value;
              && Store(id, storeName) in db.stores
              && r.value.db.stores == db.stores
              && r.value.db.log == db.log
              && r.value.db.items.Keys == db.items.Keys
              && r.value.updated == |selected * db.items.Keys|
              && (forall k :: k in db.items && k in selected ==> r.value.db.items[k] == db.items[k].(store := id))
              && (forall k :: k in db.items && k !in selected ==> r.value.db.items[k] == db.items[k])
  {
    match GetStoreNamed(db.stores, storeName)
    case Err(e) => Err(e)
    case Ok(id) =>
      var items := map k | k in db.items :: if k in selected then db.items[k].(store := id) else db.items[k];
      Ok(Assigned(db.(items := items), |selected * db.items.Keys|))
  }

  /** Moving items between stores changes no balance, deficit, surplus or status. */
  lemma AssignKeepsLedger(db: Db, selected: set<string>, storeName: string, k: string)
    requires AssignSelected(db, selected, storeName).Ok?
    requires k in db.items
    ensures var after := AssignSelected(db, selected, storeName).value.db;
            && CurrentBalance(after.items[k], after.log) == CurrentBalance(db.items[k], db.log)
            && PhysicalBalance(after.items[k], after.log) == PhysicalBalance(db.items[k], db.log)
            && ReorderStatus(after.items[k], after.log) == ReorderStatus(db.items[k], db.log)
            && after.items[k].materialNo == db.items[k].materialNo
  {
  }

  /** Assigning the same selection to the same store twice gives the state of assigning it once. */
  lemma AssignIdempotent(db: Db, selected: set<string>, storeName: string)
    requires AssignSelected(db, selected, storeName).Ok?
    ensures var once := AssignSelected(db, selected, storeName).value;
            var twice := AssignSelected(once.db, selected, storeName);
            twice.Ok? && twice.value == once
  {
    var once := AssignSelected(db, selected, storeName).value;
    var twice := AssignSelected(once.db, selected, storeName);
    assert twice.value.db.items == once.db.items;
  }

  /** The "Assign selected to SF STORE" action. */
  function AssignToSf(db: Db, selected: set<string>): (r: Result<Assigned, LookupError>)
    ensures r == AssignSelected(db, selected, "SF STORE")
    ensures r.Ok? <==> GetStoreNamed(db.stores, "SF STORE").Ok?
    ensures r.Ok? ==> r.value.db.stores == db.stores && r.value.db.log == db.log
    ensures r.Ok? ==> r.value.updated == |selected * db.items.Keys| && r.value.db.items.Keys == db.items.Keys
    ensures r.Ok? ==> forall k :: k in db.items && k in selected ==>
                        Store(r.value.db.items[k].store, "SF STORE") in db.stores
    ensures r.Ok? ==> forall k :: k in db.items && k !in selected ==> r.value.db.items[k] == db.items[k]
  {
    AssignSelected(db, selected, "SF STORE")
  }

  /** The "Assign selected to COMPUTER STORE" action. */
  function AssignToComputer(db: Db, selected: set<string>): (r: Result<Assigned, LookupError>)
    ensures r == AssignSelected(db, selected, "COMPUTER STORE")
    ensures r.Ok? <==> GetStoreNamed(db.stores, "COMPUTER STORE").Ok?
    ensures r.Ok? ==> r.value.db.stores == db.stores && r.value.db.log == db.log
    ensures r.Ok? ==> r.value.updated == |selected * db.items.Keys| && r.value.db.items.Keys == db.items.Keys
    ensures r.Ok? ==> forall k :: k in db.items && k in selected ==>
                        Store(r.value.db.items[k].store, "COMPUTER STORE") in db.stores
    ensures r.Ok? ==> forall k :: k in db.items && k !in selected ==> r.value.db.items[k] == db.items[k]
  {
    AssignSelected(db, selected, "COMPUTER STORE")
  }

  /** The "Assign selected to MAINTENANCE STORE" action. */
  function AssignToMaintenance(db: Db, selected: set<string>): (r: Result<Assigned, LookupError>)
    ensures r == AssignSelected(db, selected, "MAINTENANCE STORE")
    ensures r.Ok? <==> GetStoreNamed(db.stores, "MAINTENANCE STORE").Ok?
    ensures r.Ok? ==> r.value.db.stores == db.stores && r.value.db.log == db.log
    ensures r.Ok? ==> r.value.updated == |selected * db.items.Keys| && r.value.db.items.Keys == db.items.Keys
    ensures r.Ok? ==> forall k :: k in db.items && k in selected ==>
                        Store(r.value.db.items[k].store, "MAINTENANCE STORE") in db.stores
    ensures r.Ok? ==> forall k :: k in db.items && k !in selected ==> r.value.db.items[k] == db.items[k]
  {
    AssignSelected(db, selected, "MAINTENANCE STORE")
  }
}
