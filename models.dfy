/**
 * The stock ledger of core/models.py: stores, items with their opening values, and the
 * append-only log of signed transactions from which every balance is derived afresh.
 */
module Models {
  import opened Wrappers

  type StoreId = nat

  /** A row of the store table: its primary key and display name. */
  datatype Store = Store(id: StoreId, name: string)

  datatype Date = Date(year: int, month: int, day: int)

  /**
   * An item. `materialNo` is unique and serves as the item's key; the
   * opening values are fixed by the importer and only change on re-import.
   */
  datatype Item = Item(
    store: StoreId,
    materialNo: string,
    description: string,
    unit: string,
    openingBinBalance: int,
    openingPhysical: int,
    reorderQuantity: int,
    reorderLevel: int)

  /**
   * One ledger entry against the item whose material number is `item`. `qty` is signed:
   * positive for a receipt, negative for an issue.
   */
  datatype Transaction = Transaction(
    item: string,
    date: Date,
    docNo: string,
    kind: string,
    qty: int,
    department: string)

  /** The two entries of `TYPE_CHOICES`. */
  const Receipt: string := "Receipt"
  const Issue: string := "Issue"

  /** The tables of the relational store: stores, items by material number, and the transaction log. */
  datatype Db = Db(stores: seq<Store>, items: map<string, Item>, log: seq<Transaction>)

  /** Every item is filed under its own material number, so there is one item per material number. */
  ghost predicate Keyed(items: map<string, Item>) {
    forall k :: k in items ==> items[k].materialNo == k
  }

  function Max(a: int, b: int): int {
    if a >= b then a else b
  }

  /** Python's `abs` on an integer. */
  function Abs(n: int): nat {
    if n < 0 then -n else n
  }

  /**
   * `SUM(qty)` over the transactions of the item `material`, where the SQL sum of no rows
   * (NULL) is replaced by 0, as `... or 0` does.
   */
  function Movement(log: seq<Transaction>, material: string): int {
    if log == [] then 0
    else
      var t := log[|log| - 1];
      Movement(log[..|log| - 1], material) + (if t.item == material then t.qty else 0)
  }

  /** `Item.current_balance`: the opening bin balance plus the net movement. */
  function CurrentBalance(item: Item, log: seq<Transaction>): (r: int)
    ensures log == [] ==> r == item.openingBinBalance
  {
    item.openingBinBalance + Movement(log, item.materialNo)
  }

  /** `Item.physical_balance`: the opening physical count plus the same net movement. */
  function PhysicalBalance(item: Item, log: seq<Transaction>): (r: int)
    ensures log == [] ==> r == item.openingPhysical
    ensures r - CurrentBalance(item, log) == item.openingPhysical - item.openingBinBalance
  {
    item.openingPhysical + Movement(log, item.materialNo)
  }

  /** `Item.deficit`: the book balance in excess of the physical one, which no transaction changes. */
  function Deficit(item: Item, log: seq<Transaction>): (r: int)
    ensures r >= 0
    ensures r == Max(0, item.openingBinBalance - item.openingPhysical)
  {
    Max(0, CurrentBalance(item, log) - PhysicalBalance(item, log))
  }

  /** `Item.surplus`: the physical balance in excess of the book one, which no transaction changes. */
  function Surplus(item: Item, log: seq<Transaction>): (r: int)
    ensures r >= 0
    ensures r == Max(0, item.openingPhysical - item.openingBinBalance)
  {
    Max(0, PhysicalBalance(item, log) - CurrentBalance(item, log))
  }

  /** `Item.needs_reorder`: the reorder level is a threshold, reached when equal. */
  function NeedsReorder(item: Item, log: seq<Transaction>): (r: bool)
    ensures log == [] ==> (r <==> item.openingBinBalance <= item.reorderLevel)
  {
    CurrentBalance(item, log) <= item.reorderLevel
  }

  /**
   * An entry of at most zero never clears the need to reorder, and an entry of at
   * least zero never creates it.
   */
  lemma ReorderAfterEntry(item: Item, log: seq<Transaction>, t: Transaction)
    ensures t.qty <= 0 && NeedsReorder(item, log) ==> NeedsReorder(item, log + [t])
    ensures t.qty >= 0 && NeedsReorder(item, log + [t]) ==> NeedsReorder(item, log)
  {
    AppendMovesBalance(item, log, t);
  }

  /** Deficit and surplus are never both positive and their difference is the opening gap. */
  lemma DeficitSurplusRelation(item: Item, log: seq<Transaction>)
    ensures Deficit(item, log) == 0 || Surplus(item, log) == 0
    ensures Deficit(item, log) - Surplus(item, log) == item.openingBinBalance - item.openingPhysical
    ensures Deficit(item, log) == Max(0, CurrentBalance(item, log) - PhysicalBalance(item, log))
  {
  }

  /** A log without entries for the material does not move it. */
  lemma {:induction false} MovementOfOthers(log: seq<Transaction>, material: string)
    requires forall i :: 0 <= i < |log| ==> log[i].item != material
    ensures Movement(log, material) == 0
  {
    if log != [] {
      MovementOfOthers(log[..|log| - 1], material);
    }
  }

  /** Entries of at least zero sum to at least zero, and entries of at most zero to at most zero. */
  lemma {:induction false} MovementSign(log: seq<Transaction>, material: string)
    ensures (forall i :: 0 <= i < |log| ==> log[i].qty >= 0) ==> Movement(log, material) >= 0
    ensures (forall i :: 0 <= i < |log| ==> log[i].qty <= 0) ==> Movement(log, material) <= 0
  {
    if log != [] {
      MovementSign(log[..|log| - 1], material);
    }
  }

  /** The net movement of a concatenated log is the sum of the parts'. */
  lemma {:induction false} MovementAppend(a: seq<Transaction>, b: seq<Transaction>, material: string)
    ensures Movement(a + b, material) == Movement(a, material) + Movement(b, material)
    decreases |b|
  {
    if b == [] {
      assert a + b == a;
    } else {
      var c := a + b;
      assert c[..|c| - 1] == a + b[..|b| - 1];
      assert c[|c| - 1] == b[|b| - 1];
      MovementAppend(a, b[..|b| - 1], material);
    }
  }

  /** Removing the entry at `j` takes its contribution out of the net movement. */
  lemma MovementRemove(b: seq<Transaction>, j: nat, material: string)
    requires j < |b|
    ensures Movement(b, material)
            == Movement(b[..j] + b[j + 1..], material) + (if b[j].item == material then b[j].qty else 0)
  {
    assert b == b[..j] + [b[j]] + b[j + 1..];
    MovementAppend(b[..j] + [b[j]], b[j + 1..], material);
    MovementAppend(b[..j], [b[j]], material);
    MovementAppend(b[..j], b[j + 1..], material);
  }

  lemma MultisetRemove<T>(b: seq<T>, j: nat)
    requires j < |b|
    ensures multiset(b[..j] + b[j + 1..]) == multiset(b) - multiset{b[j]}
  {
    assert b == b[..j] + [b[j]] + b[j + 1..];
  }

  /** The last entry of `a` sits at some `j` in a permutation `b`, and the rests are again permutations. */
  lemma PermutationRest<T>(a: seq<T>, b: seq<T>) returns (j: nat)
    requires multiset(a) == multiset(b) && a != []
    ensures j < |b| && b[j] == a[|a| - 1]
    ensures multiset(a[..|a| - 1]) == multiset(b[..j] + b[j + 1..])
  {
    assert a[|a| - 1] in multiset(b);
    j :| 0 <= j < |b| && b[j] == a[|a| - 1];
    MultisetRemove(a, |a| - 1);
    MultisetRemove(b, j);
    assert a[..|a| - 1] + a[|a|..] == a[..|a| - 1];
  }

  /** The net movement does not depend on the order of the log: a permutation has the same sum. */
  lemma {:induction false} MovementPermutation(a: seq<Transaction>, b: seq<Transaction>, material: string)
    requires multiset(a) == multiset(b)
    ensures Movement(a, material) == Movement(b, material)
    decreases |a|
  {
    if a == [] {
      assert |b| == |multiset(b)| == 0;
    } else {
      var j := PermutationRest(a, b);
      MovementPermutation(a[..|a| - 1], b[..j] + b[j + 1..], material);
      MovementRemove(b, j, material);
    }
  }

  /** The balances are the same however the log is ordered. */
  lemma BalancesOrderIndependent(item: Item, a: seq<Transaction>, b: seq<Transaction>)
    requires multiset(a) == multiset(b)
    ensures CurrentBalance(item, a) == CurrentBalance(item, b)
    ensures PhysicalBalance(item, a) == PhysicalBalance(item, b)
  {
    MovementPermutation(a, b, item.materialNo);
  }

  /**
   * Appending one transaction moves both balances of its own item by exactly its `qty`
   * and leaves every other item's balances and all opening values as they were.
   */
  lemma AppendMovesBalance(item: Item, log: seq<Transaction>, t: Transaction)
    ensures t.item == item.materialNo ==> CurrentBalance(item, log + [t]) == CurrentBalance(item, log) + t.qty
    ensures t.item == item.materialNo ==> PhysicalBalance(item, log + [t]) == PhysicalBalance(item, log) + t.qty
    ensures t.item != item.materialNo ==> CurrentBalance(item, log + [t]) == CurrentBalance(item, log)
    ensures t.item != item.materialNo ==> PhysicalBalance(item, log + [t]) == PhysicalBalance(item, log)
  {
    assert (log + [t])[..|log|] == log;
  }

  /** Appending any transactions changes neither the deficit nor the surplus. */
  lemma AppendKeepsDeficitSurplus(item: Item, log: seq<Transaction>, more: seq<Transaction>)
    ensures Deficit(item, log + more) == Deficit(item, log)
    ensures Surplus(item, log + more) == Surplus(item, log)
  {
  }

  /** The store ids whose name is `name`: what `Store.objects.filter(name=name)` selects. */
  function StoreIdsNamed(stores: seq<Store>, name: string): (r: seq<StoreId>)
    ensures |r| <= |stores|
    ensures forall id :: id in r ==> Store(id, name) in stores
    ensures forall s :: s in stores && s.name == name ==> s.id in r
  {
    if stores == [] then []
    else
      var rest := StoreIdsNamed(stores[1..], name);
      assert stores == [stores[0]] + stores[1..];
      if stores[0].name == name then [stores[0].id] + rest else rest
  }

  lemma {:induction false} StoreIdsNamedAppend(stores: seq<Store>, s: Store, name: string)
    ensures StoreIdsNamed(stores + [s], name)
            == StoreIdsNamed(stores, name) + (if s.name == name then [s.id] else [])
  {
    if stores != [] {
      assert (stores + [s])[1..] == stores[1..] + [s];
      StoreIdsNamedAppend(stores[1..], s, name);
    }
  }

  datatype LookupError = DoesNotExist | MultipleObjectsReturned

  /** `Store.objects.get(name=name)`: the one store of that name, or the exception `get` raises. */
  function GetStoreNamed(stores: seq<Store>, name: string): (r: Result<StoreId, LookupError>)
    ensures r.Ok? <==> |StoreIdsNamed(stores, name)| == 1
    ensures r.Ok? ==> Store(r.value, name) in stores
    ensures r == Err(DoesNotExist) <==> forall s :: s in stores ==> s.name != name
  {
    var ids := StoreIdsNamed(stores, name);
    if |ids| == 0 then Err(DoesNotExist)
    else if |ids| == 1 then
      assert ids[0] in ids;
      Ok(ids[0])
    else Err(MultipleObjectsReturned)
  }
}
